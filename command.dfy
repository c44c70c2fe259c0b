/** The command classifier: the `Command` record with its known constants, and
    `Parse`, which takes the command token off the front of the line and
    classifies it with a fast path for `PRIVMSG` and a first-byte/suffix trie
    for every other known command. */
module Commands {
  import opened Bytes
  import opened Wrappers
  import opened Letters

  datatype CommandKey =
    | Undefined
    | Ping | Pong | Join | Part | Privmsg
    | Whisper | Clearchat | Clearmsg | GlobalUserState | HostTarget | Notice
    | Reconnect | RoomState | UserNotice | UserState | Capability
    | RplWelcome | RplYourHost | RplCreated | RplMyInfo
    | RplNamReply | RplEndOfNames | RplMotd | RplMotdStart | RplEndOfMotd

  /** A record struct: equality compares both the key and the bytes. */
  datatype Command = Command(key: CommandKey, value: seq<byte>) {

    // Each literal is written as the trie reads it: first byte, then the rest.

    static const Ping := Command(CommandKey.Ping, [P] + [I, N, G])  // PING
    static const Pong := Command(CommandKey.Pong, [P] + [O, N, G])  // PONG
    static const Join := Command(CommandKey.Join, [J] + [O, I, N])  // JOIN
    static const Part := Command(CommandKey.Part, [P] + [A, R, T])  // PART
    static const Privmsg := Command(CommandKey.Privmsg, [P] + [R, I, V, M, S, G])  // PRIVMSG
    static const Whisper := Command(CommandKey.Whisper, [W] + [H, I, S, P, E, R])  // WHISPER
    static const Clearchat := Command(CommandKey.Clearchat, [C] + [L, E, A, R, C, H, A, T])  // CLEARCHAT
    static const Clearmsg := Command(CommandKey.Clearmsg, [C] + [L, E, A, R, M, S, G])  // CLEARMSG
    static const GlobalUserState := Command(CommandKey.GlobalUserState, [G] + [L, O, B, A, L, U, S, E, R, S, T, A, T, E])  // GLOBALUSERSTATE
    static const HostTarget := Command(CommandKey.HostTarget, [H] + [O, S, T, T, A, R, G, E, T])  // HOSTTARGET
    static const Notice := Command(CommandKey.Notice, [N] + [O, T, I, C, E])  // NOTICE
    static const Reconnect := Command(CommandKey.Reconnect, [R] + [E, C, O, N, N, E, C, T])  // RECONNECT
    static const RoomState := Command(CommandKey.RoomState, [R] + [O, O, M, S, T, A, T, E])  // ROOMSTATE
    static const UserNotice := Command(CommandKey.UserNotice, [U] + [S, E, R, N, O, T, I, C, E])  // USERNOTICE
    static const UserState := Command(CommandKey.UserState, [U] + [S, E, R, S, T, A, T, E])  // USERSTATE
    static const Capability := Command(CommandKey.Capability, [C] + [A, P])  // CAP
    static const RplWelcome := Command(CommandKey.RplWelcome, [D0] + [D0, D1])  // 001
    static const RplYourHost := Command(CommandKey.RplYourHost, [D0] + [D0, D2])  // 002
    static const RplCreated := Command(CommandKey.RplCreated, [D0] + [D0, D3])  // 003
    static const RplMyInfo := Command(CommandKey.RplMyInfo, [D0] + [D0, D4])  // 004
    // The source pairs "353" with the RplEndOfNames key, as written.
    static const RplNamReply := Command(CommandKey.RplEndOfNames, [D3] + [D5, D3])  // 353
    static const RplEndOfNames := Command(CommandKey.RplEndOfNames, [D3] + [D6, D6])  // 366
    static const RplMotd := Command(CommandKey.RplMotd, [D3] + [D7, D2])  // 372
    static const RplMotdStart := Command(CommandKey.RplMotdStart, [D3] + [D7, D5])  // 375
    static const RplEndOfMotd := Command(CommandKey.RplEndOfMotd, [D3] + [D7, D6])  // 376

    /** `default(Command)`: the Undefined key with no bytes. It is what the
        classifier's `default` arms produce. */
    static const Default := Command(CommandKey.Undefined, [])
  }

  /** The constants the trie dispatches to (every constant but Command.Privmsg, which
      only the fast path returns, and Command.RplEndOfMotd, which nothing returns). */
  const TrieCommands: set<Command> := {
    Command.Ping, Command.Pong, Command.Part, Command.Join, Command.Whisper, Command.Clearchat, Command.Clearmsg, Command.Capability,
    Command.GlobalUserState, Command.HostTarget, Command.Notice, Command.Reconnect, Command.RoomState,
    Command.UserNotice, Command.UserState, Command.RplWelcome, Command.RplYourHost, Command.RplCreated, Command.RplMyInfo,
    Command.RplNamReply, Command.RplEndOfNames, Command.RplMotd, Command.RplMotdStart}

  /** Every constant `Parse` can return. */
  const Dispatched: set<Command> := {Command.Privmsg} + TrieCommands

  /** The token before the first space. */
  function Token(source: seq<byte>): seq<byte> {
    SplitFirst(source, SP).0
  }

  /** The trie over the command token: first byte, then the remaining suffix.
      A known constant is returned only for its own literal; a first byte with
      a nested match (P, C, R, U, 0, 3) and no matching suffix gives `Command.Default`;
      any other non-empty token is kept as `Undefined`. */
  function Classify(raw: seq<byte>): (r: Command)
    ensures r.key != CommandKey.Undefined ==> r in TrieCommands && r.value == raw
    ensures r.key == CommandKey.Undefined ==>
      r == Command.Default || (raw != [] && r == Command(CommandKey.Undefined, raw))
  {
    if raw == [] then Command.Default
    else
      var head, rest := raw[0], raw[1..];
      assert raw == [head] + rest;
      if head == P then UnderP(rest)
      else if head == J && rest == [O, I, N] then Command.Join
      else if head == W && rest == [H, I, S, P, E, R] then Command.Whisper
      else if head == C then UnderC(rest)
      else if head == G && rest == [L, O, B, A, L, U, S, E, R, S, T, A, T, E] then Command.GlobalUserState
      else if head == H && rest == [O, S, T, T, A, R, G, E, T] then Command.HostTarget
      else if head == N && rest == [O, T, I, C, E] then Command.Notice
      else if head == R then UnderR(rest)
      else if head == U then UnderU(rest)
      else if head == D0 then UnderZero(rest)
      else if head == D3 then UnderThree(rest)
      else Command(CommandKey.Undefined, raw)
  }

  // The nested matches of the trie, one per first byte that has one. Each
  // returns a constant spelt by its first byte and `rest`, or `Command.Default`.

  function UnderP(rest: seq<byte>): (r: Command)
    ensures r == Command.Default || (r in {Command.Ping, Command.Pong, Command.Part} && r.value == [P] + rest)
  {
    if rest == [I, N, G] then Command.Ping
    else if rest == [O, N, G] then Command.Pong
    else if rest == [A, R, T] then Command.Part
    else Command.Default
  }

  function UnderC(rest: seq<byte>): (r: Command)
    ensures r == Command.Default || (r in {Command.Clearchat, Command.Clearmsg, Command.Capability} && r.value == [C] + rest)
  {
    if rest == [L, E, A, R, C, H, A, T] then Command.Clearchat
    else if rest == [L, E, A, R, M, S, G] then Command.Clearmsg
    else if rest == [A, P] then Command.Capability
    else Command.Default
  }

  function UnderR(rest: seq<byte>): (r: Command)
    ensures r == Command.Default || (r in {Command.Reconnect, Command.RoomState} && r.value == [R] + rest)
  {
    if rest == [E, C, O, N, N, E, C, T] then Command.Reconnect
    else if rest == [O, O, M, S, T, A, T, E] then Command.RoomState
    else Command.Default
  }

  function UnderU(rest: seq<byte>): (r: Command)
    ensures r == Command.Default || (r in {Command.UserNotice, Command.UserState} && r.value == [U] + rest)
  {
    if rest == [S, E, R, N, O, T, I, C, E] then Command.UserNotice
    else if rest == [S, E, R, S, T, A, T, E] then Command.UserState
    else Command.Default
  }

  function UnderZero(rest: seq<byte>): (r: Command)
    ensures r == Command.Default ||
      (r in {Command.RplWelcome, Command.RplYourHost, Command.RplCreated, Command.RplMyInfo} && r.value == [D0] + rest)
  {
    if rest == [D0, D1] then Command.RplWelcome
    else if rest == [D0, D2] then Command.RplYourHost
    else if rest == [D0, D3] then Command.RplCreated
    else if rest == [D0, D4] then Command.RplMyInfo
    else Command.Default
  }

  function UnderThree(rest: seq<byte>): (r: Command)
    ensures r == Command.Default ||
      (r in {Command.RplNamReply, Command.RplEndOfNames, Command.RplMotd, Command.RplMotdStart} && r.value == [D3] + rest)
  {
    if rest == [D5, D3] then Command.RplNamReply
    else if rest == [D6, D6] then Command.RplEndOfNames
    else if rest == [D7, D2] then Command.RplMotd
    else if rest == [D7, D5] then Command.RplMotdStart
    else Command.Default
  }

  /** `Command.Parse(ref source)`: the command and the new value of `source`. */
  function Parse(source: seq<byte>): (r: (Command, seq<byte>))
    ensures IsSuffix(r.1, source)
    ensures r.0.key != CommandKey.Undefined ==> r.0 in Dispatched && StartsWith(source, r.0.value)
  {
    if StartsWith(source, Command.Privmsg.value) then
      (Command.Privmsg, source[|Command.Privmsg.value|..])
    else
      var (raw, rest) := SplitFirst(source, SP);
      (Classify(raw), rest)
  }

  /** First bytes whose arm holds a nested match with its own `default`. */
  const NestedHeads: set<byte> := {P, C, R, U, D0, D3}

  // ---- Facts about the literals ----

  /** A literal as every command literal is spelt: free of spaces, at least
      three bytes long, starting with a digit or capital letter. */
  predicate WellSpelt(value: seq<byte>) {
    SP !in value && |value| >= 3 && IsDigitOrUpper(value[0])
  }

  /** The two sequences differ in one of their first two positions. */
  predicate DiffersEarly(a: seq<byte>, b: seq<byte>) {
    |a| >= 2 && |b| >= 2 && (a[0] != b[0] || a[1] != b[1])
  }

  /** What the trie promises for one of its constants: a well-spelt literal
      that parts from PRIVMSG within two bytes and is classified as itself. */
  predicate Recognised(c: Command) {
    WellSpelt(c.value) && DiffersEarly(c.value, Command.Privmsg.value) && Classify(c.value) == c
  }

  /** Every declared literal is well spelt; every trie constant is recognised. */
  lemma LiteralFacts(c: Command)
    requires c in Dispatched || c == Command.RplEndOfMotd
    ensures WellSpelt(c.value)
    ensures c in TrieCommands ==> Recognised(c)
  {
    if c in {Command.Ping, Command.Pong, Command.Part} {
      ArmP();
    } else if c in {Command.Join, Command.Whisper} {
      ArmJW();
    } else if c == Command.GlobalUserState {
      ArmG();
    } else if c in {Command.HostTarget, Command.Notice} {
      ArmHN();
    } else if c in {Command.Clearchat, Command.Clearmsg, Command.Capability} {
      ArmC();
    } else if c in {Command.Reconnect, Command.RoomState} {
      ArmR();
    } else if c in {Command.UserNotice, Command.UserState} {
      ArmU();
    } else if c in {Command.RplWelcome, Command.RplYourHost, Command.RplCreated, Command.RplMyInfo} {
      ArmZero();
    } else if c in {Command.RplNamReply, Command.RplEndOfNames, Command.RplMotd, Command.RplMotdStart} {
      ArmThree();
    }
  }

  // One lemma per arm of the trie, each about its own constants.

  lemma ArmP()
    ensures Recognised(Command.Ping) && Recognised(Command.Pong) && Recognised(Command.Part)
  {
  }

  lemma ArmJW()
    ensures Recognised(Command.Join) && Recognised(Command.Whisper)
  {
  }

  lemma ArmG()
    ensures Recognised(Command.GlobalUserState)
  {
  }

  lemma ArmHN()
    ensures Recognised(Command.HostTarget) && Recognised(Command.Notice)
  {
  }

  lemma ArmC()
    ensures Recognised(Command.Clearchat) && Recognised(Command.Clearmsg) && Recognised(Command.Capability)
  {
  }

  lemma ArmR()
    ensures Recognised(Command.Reconnect) && Recognised(Command.RoomState)
  {
  }

  lemma ArmU()
    ensures Recognised(Command.UserNotice) && Recognised(Command.UserState)
  {
  }

  lemma ArmZero()
    ensures Recognised(Command.RplWelcome) && Recognised(Command.RplYourHost)
    ensures Recognised(Command.RplCreated) && Recognised(Command.RplMyInfo)
  {
  }

  lemma ArmThree()
    ensures Recognised(Command.RplNamReply) && Recognised(Command.RplEndOfNames)
    ensures Recognised(Command.RplMotd) && Recognised(Command.RplMotdStart)
  {
  }

  /** No trie literal starts with the bytes of PRIVMSG. */
  lemma TrieLiteralNotPrivmsg(c: Command, more: seq<byte>)
    requires c in TrieCommands
    ensures !StartsWith(c.value + more, Command.Privmsg.value)
  {
    LiteralFacts(c);
    var s := c.value + more;
    assert s[0] == c.value[0] && s[1] == c.value[1];
  }

  // ---- The trie ----

  /** Each trie constant is classified as itself from its own literal. */
  lemma TrieRecognises(c: Command)
    requires c in TrieCommands
    ensures Classify(c.value) == c
  {
    LiteralFacts(c);
  }

  /** Classify yields a known command exactly for the trie literals, and then
      the command's bytes are the token. */
  lemma ClassifyKnownIff(token: seq<byte>)
    ensures Classify(token).key != CommandKey.Undefined <==>
      exists c :: c in TrieCommands && c.value == token
    ensures Classify(token).key != CommandKey.Undefined ==> Classify(token).value == token
  {
    if c :| c in TrieCommands && c.value == token {
      TrieRecognises(c);
    }
  }

  /** An unrecognised token whose first byte has no nested match (every byte
      but P, C, R, U, 0, 3: the guarded J, W, G, H, N included) is kept. */
  lemma UnrecognisedKept(token: seq<byte>)
    requires token != [] && token[0] !in NestedHeads
    requires forall c :: c in TrieCommands ==> c.value != token
    ensures Classify(token) == Command(CommandKey.Undefined, token)
  {
    ClassifyKnownIff(token);
    UndefinedOutsideNested(token);
  }

  /** An unrecognised token under P, C, R, U, 0 or 3 loses its bytes: the
      nested `default` arm answers, not the `Undefined` one. */
  lemma UnrecognisedDropped(token: seq<byte>)
    requires token != [] && token[0] in NestedHeads
    requires forall c :: c in TrieCommands ==> c.value != token
    ensures Classify(token) == Command.Default
    ensures Classify(token) != Command(CommandKey.Undefined, token)
  {
    ClassifyKnownIff(token);
    UndefinedInsideNested(token);
  }

  lemma UndefinedOutsideNested(token: seq<byte>)
    requires token != [] && token[0] !in NestedHeads
    requires Classify(token).key == CommandKey.Undefined
    ensures Classify(token) == Command(CommandKey.Undefined, token)
  {
  }

  lemma UndefinedInsideNested(token: seq<byte>)
    requires token != [] && token[0] in NestedHeads
    requires Classify(token).key == CommandKey.Undefined
    ensures Classify(token) == Command.Default
  {
  }

  // ---- Parse ----

  /** Any input beginning with PRIVMSG is Command.Privmsg with exactly those seven
      bytes consumed; the next byte is never inspected. */
  lemma FastPath(rest: seq<byte>)
    ensures Parse(Command.Privmsg.value + rest) == (Command.Privmsg, rest)
  {
    assert (Command.Privmsg.value + rest)[..|Command.Privmsg.value|] == Command.Privmsg.value;
  }

  lemma FastPathIgnoresNextByte()
    ensures Parse(Ascii("PRIVMSGX y")) == (Command.Privmsg, Ascii("X y"))
  {
    assert Ascii("PRIVMSGX y") == Command.Privmsg.value + Ascii("X y");
    FastPath(Ascii("X y"));
  }

  /** Off the fast path the token is the bytes before the first space, the
      remainder the bytes after it, and only the token is classified. */
  lemma GeneralPath(source: seq<byte>)
    requires !StartsWith(source, Command.Privmsg.value)
    ensures Parse(source).0 == Classify(Token(source))
    ensures SP !in Token(source)
    ensures SP in source ==> source == Token(source) + [SP] + Parse(source).1
    ensures SP !in source ==> Token(source) == source && Parse(source).1 == []
  {
  }

  /** Each known literal, alone or followed by a space and anything, parses to
      its constant; the remainder is what follows the space, except on the
      fast path, which leaves the space in place. */
  lemma KnownTokens(c: Command, rest: seq<byte>)
    requires c in Dispatched
    ensures Parse(c.value) == (c, [])
    ensures Parse(c.value + [SP] + rest) == (c, if c == Command.Privmsg then [SP] + rest else rest)
  {
    if c == Command.Privmsg {
      FastPath([]);
      assert c.value + [] == c.value;
      FastPath([SP] + rest);
      assert c.value + [SP] + rest == c.value + ([SP] + rest);
    } else {
      LiteralFacts(c);
      TrieLiteralNotPrivmsg(c, []);
      assert c.value + [] == c.value;
      TrieLiteralNotPrivmsg(c, [SP] + rest);
      assert c.value + [SP] + rest == c.value + ([SP] + rest);
      SplitFirstUnique(c.value, SP, rest);
      TrieRecognises(c);
    }
  }

  /** An empty token (empty input, or a leading space) gives `Command.Default`. */
  lemma EmptyToken(source: seq<byte>)
    requires source == [] || source[0] == SP
    ensures Parse(source) == (Command.Default, if source == [] then [] else source[1..])
  {
  }

  /** The fast path fires on a line exactly when it fires on the line's token. */
  lemma FastPathSeesOnlyToken(source: seq<byte>)
    ensures StartsWith(source, Command.Privmsg.value) <==> StartsWith(Token(source), Command.Privmsg.value)
  {
    var p := Command.Privmsg.value;
    var (token, rest) := SplitFirst(source, SP);
    LiteralFacts(Command.Privmsg);
    if SP in source {
      assert source == token + [SP] + rest;
      assert source[|token|] == SP;
      if StartsWith(source, p) {
        assert |token| >= |p| by {
          if |token| < |p| {
            assert false;
          }
        }
        assert token[..|p|] == source[..|p|];
      }
      if StartsWith(token, p) {
        assert source[..|p|] == token[..|p|];
      }
    }
  }

  /** A token followed by a space and anything: the token alone is classified
      and everything after the space is handed back. */
  lemma TokenThenRest(token: seq<byte>, rest: seq<byte>)
    requires SP !in token && !StartsWith(token, Command.Privmsg.value)
    ensures Parse(token + [SP] + rest) == (Classify(token), rest)
  {
    SplitFirstUnique(token, SP, rest);
    FastPathSeesOnlyToken(token + [SP] + rest);
  }

  /** The command depends only on the token before the first space. */
  lemma TokenDeterminesCommand(s1: seq<byte>, s2: seq<byte>)
    requires Token(s1) == Token(s2)
    ensures Parse(s1).0 == Parse(s2).0
  {
    FastPathSeesOnlyToken(s1);
    FastPathSeesOnlyToken(s2);
  }

  /** Command.RplEndOfMotd is declared but no input yields it, nor any command with
      its key or the Command.RplNamReply key. */
  lemma EndOfMotdNeverReturned(source: seq<byte>)
    ensures Parse(source).0 != Command.RplEndOfMotd
    ensures Parse(source).0.key !in {CommandKey.RplEndOfMotd, CommandKey.RplNamReply}
  {
    var c := Parse(source).0;
    if c.key != CommandKey.Undefined {
      DispatchedKeys(c);
    }
  }

  /** The keys the dispatched constants carry. */
  lemma DispatchedKeys(c: Command)
    requires c in Dispatched
    ensures c.key !in {CommandKey.Undefined, CommandKey.RplEndOfMotd, CommandKey.RplNamReply}
  {
  }

  /** The literal "376" falls to the nested `default` of the '3' arm. */
  lemma EndOfMotdLiteralUnrecognised(rest: seq<byte>)
    ensures Parse(Command.RplEndOfMotd.value + [SP] + rest) == (Command.Default, rest)
  {
    var token := Command.RplEndOfMotd.value;
    LiteralFacts(Command.RplEndOfMotd);
    assert !StartsWith(token, Command.Privmsg.value) by {
      assert token[0] != Command.Privmsg.value[0];
    }
    TokenThenRest(token, rest);
    EndOfMotdClassified();
  }

  lemma EndOfMotdClassified()
    ensures Classify(Command.RplEndOfMotd.value) == Command.Default
  {
  }

  /** "353" and "366" share the Command.RplEndOfNames key and differ only in bytes. */
  lemma NamReplySharesKey()
    ensures Parse(Command.RplNamReply.value).0.key == CommandKey.RplEndOfNames
    ensures Parse(Command.RplEndOfNames.value).0.key == CommandKey.RplEndOfNames
    ensures Parse(Command.RplNamReply.value).0 != Parse(Command.RplEndOfNames.value).0
  {
    KnownTokens(Command.RplNamReply, []);
    KnownTokens(Command.RplEndOfNames, []);
  }

  // ---- The fast path's remainder ----

  /** As written, the fast path hands back the space that ends PRIVMSG, while
      every other command, and SplitFirst itself, consumes it. */
  lemma FastPathKeepsSeparator(rest: seq<byte>)
    ensures Token(Command.Privmsg.value + [SP] + rest) == Command.Privmsg.value
    ensures Parse(Command.Privmsg.value + [SP] + rest).1 == [SP] + rest
    ensures SplitFirst(Command.Privmsg.value + [SP] + rest, SP).1 == rest
  {
    LiteralFacts(Command.Privmsg);
    SplitFirstUnique(Command.Privmsg.value, SP, rest);
    KnownTokens(Command.Privmsg, rest);
  }

  datatype CommandError = FastPathMismatch

  /** `Parse` with the fast path re-validating the byte after PRIVMSG: a space
      is consumed, the end of input is accepted, any other byte is an error.
      Every success then returns the same command as `Parse` and the same
      remainder as the general path: the bytes after the token's space. */
  function ParseChecked(source: seq<byte>): (r: Result<(Command, seq<byte>), CommandError>)
    ensures r.Err? <==>
      StartsWith(source, Command.Privmsg.value) && |source| > |Command.Privmsg.value| && source[|Command.Privmsg.value|] != SP
    ensures r.Ok? ==> r.value.0 == Parse(source).0
    ensures r.Ok? ==> r.value.1 == SplitFirst(source, SP).1
    ensures r.Ok? && r.value.0 == Command.Privmsg ==> Token(source) == Command.Privmsg.value
  {
    var n := |Command.Privmsg.value|;
    if StartsWith(source, Command.Privmsg.value) then
      LiteralFacts(Command.Privmsg);
      if |source| == n then
        assert source == Command.Privmsg.value;
        Ok((Command.Privmsg, []))
      else if source[n] == SP then
        assert source == Command.Privmsg.value + [SP] + source[n + 1..];
        SplitFirstUnique(Command.Privmsg.value, SP, source[n + 1..]);
        Ok((Command.Privmsg, source[n + 1..]))
      else
        Err(FastPathMismatch)
    else
      var (raw, rest) := SplitFirst(source, SP);
      LiteralFacts(Command.Privmsg);
      assert Classify(raw) == Command.Privmsg ==> false;
      Ok((Classify(raw), rest))
  }

  /** With the check, PRIVMSG's space is consumed like any other command's. */
  lemma CheckedFastPathConsumesSpace(rest: seq<byte>)
    ensures ParseChecked(Command.Privmsg.value + [SP] + rest) == Ok((Command.Privmsg, rest))
  {
    FastPathKeepsSeparator(rest);
  }
}
