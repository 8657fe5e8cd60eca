/**
 * Concrete messages and what the dispatcher model decides for them, and
 * the consequences of its contract that a command author relies on.
 */
module Scenarios {
  import opened Wrappers
  import opened JavaString
  import opened JavacordHandler

  // ---------------------------------------------------------------------------
  // Tokenising

  /** "".split(" ") is [""], so an empty message still has a first token. */
  lemma EmptyContentHasOneEmptyToken()
    ensures Split("") == [""]
  {
  }

  /** A message of spaces only splits to nothing at all. */
  lemma SpacesOnlySplitToNothing()
    ensures Split("   ") == []
  {
  }

  /** Leading and inner empty tokens are kept, trailing ones are dropped. */
  lemma EmptyTokensKeptExceptTrailing()
    ensures Split(" a  b ") == ["", "a", "", "b"]
  {
    var pieces := ["", "a", "", "b", ""];
    assert pieces[1..] == ["a", "", "b", ""] && pieces[2..] == ["", "b", ""];
    assert pieces[3..] == ["b", ""] && pieces[4..] == [""];
    assert Join(["b", ""]) == "b ";
    assert Join(["", "b", ""]) == " b ";
    assert Join(["a", "", "b", ""]) == "a  b ";
    assert Join(pieces) == " a  b ";
    SplitAllJoin(pieces);
    assert ' ' == " a  b "[0];
    assert pieces[..4] == ["", "a", "", "b"];
  }

  lemma EchoSplit()
    ensures Split("echo hello world") == ["echo", "hello", "world"]
  {
    var tokens := ["echo", "hello", "world"];
    assert tokens[1..] == ["hello", "world"] && tokens[2..] == ["world"];
    assert Join(["hello", "world"]) == "hello world";
    assert Join(tokens) == "echo hello world";
    SplitOfJoin(tokens);
  }

  lemma MentionPingSplit()
    ensures Split("@bot ping") == ["@bot", "ping"]
  {
    var tokens := ["@bot", "ping"];
    assert tokens[1..] == ["ping"];
    assert Join(tokens) == "@bot ping";
    SplitOfJoin(tokens);
  }

  // ---------------------------------------------------------------------------
  // Dispatching

  const bot := User("1", "@bot")
  const alice := User("2", "@alice")
  const general := Channel("10", Server("100"))
  const api := Api(bot)

  function InChannel(content: string): Message
  {
    Message(alice, content, false, Some(general), ToChannel(general))
  }

  function Ping(requiresMention: bool): Descriptor
  {
    Descriptor(requiresMention, true, true, "", false, [StringParam])
  }

  /**
   * "@bot ping" (any message that splits that way, which "@bot ping" does)
   * reaches a mention-requiring ping with effective tokens ["ping"].
   */
  lemma MentionPrefixedCommandDispatches(message: Message)
    requires message == InChannel(message.content) && Split(message.content) == ["@bot", "ping"]
    ensures HandleMessageCreate(api, map["ping" := Ping(true)], (u, p) => true, None, message)
            == Dispatched(Ping(true), ["ping"], [Text("ping")], false)
  {
    var commands := map["ping" := Ping(true)];
    var tokens := ["@bot", "ping"];
    assert Lower("@bot") !in commands by { assert Lower("@bot")[0] == '@'; }
    assert Lower("ping") == "ping";
    assert tokens[1..] == ["ping"];
    assert Resolve(commands, tokens) == Some(Selection(Ping(true), ["ping"]));
    assert Parameters(["ping"], [StringParam], message, api) == [Text("ping")];
  }

  /** "@bot ping" never reaches a ping that does not require a mention. */
  lemma MentionPrefixedPlainCommandIgnored(message: Message)
    requires message == InChannel(message.content) && Split(message.content) == ["@bot", "ping"]
    ensures HandleMessageCreate(api, map["ping" := Ping(false)], (u, p) => true, None, message)
            == Ignored
  {
    assert Lower("@bot") == "@bot";
    assert Lower("ping") == "ping";
  }

  /** A single word without spaces splits to itself. */
  lemma WordSplitsToItself(w: string)
    requires SpaceFree(w)
    ensures Split(w) == [w]
  {
  }

  /** "PING" alone (a message that splits to ["PING"]) never reaches a ping that requires a mention. */
  lemma MentionRequiredButAbsentIgnored(message: Message)
    requires message == InChannel(message.content) && Split(message.content) == ["PING"]
    ensures HandleMessageCreate(api, map["ping" := Ping(true)], (u, p) => true, None, message)
            == Ignored
  {
    assert Lower("PING") == "ping";
  }

  /** A single unknown word ("foo") does nothing. */
  lemma UnknownWordIgnored(message: Message)
    requires message == InChannel(message.content) && Split(message.content) == ["foo"]
    ensures HandleMessageCreate(api, map["ping" := Ping(false)], (u, p) => true, None, message)
            == Ignored
  {
    assert Lower("foo") == "foo";
  }

  /** A command word in any case ("PiNg") dispatches, and the argument keeps the typed case. */
  lemma MixedCaseCommandDispatches(message: Message)
    requires message == InChannel(message.content) && Split(message.content) == ["PiNg"]
    ensures HandleMessageCreate(api, map["ping" := Ping(false)], (u, p) => true, None, message)
            == Dispatched(Ping(false), ["PiNg"], [Text("PiNg")], false)
  {
    var commands := map["ping" := Ping(false)];
    assert Lower("PiNg") == "ping";
    assert Resolve(commands, ["PiNg"]) == Some(Selection(Ping(false), ["PiNg"]));
    assert Parameters(["PiNg"], [StringParam], message, api) == [Text("PiNg")];
  }

  /**
   * A user without "admin" gets the configured notice and the command is not
   * called; a user with it calls the command.
   */
  lemma AdminOnlyCommand(hasAdmin: bool, message: Message)
    requires message == InChannel(message.content) && Split(message.content) == ["ban"]
    ensures var admin := Descriptor(false, true, true, "admin", false, []);
            var has := (u: User, p: string) => hasAdmin || p != "admin";
            HandleMessageCreate(api, map["ban" := admin], has, Some("no!"), message)
            == if hasAdmin then Dispatched(admin, ["ban"], [], false) else PermissionDenied(Some("no!"))
  {
    assert Lower("ban") == "ban";
  }

  /** String and String[] parameters of "echo hello world" get "echo" and ["hello", "world"]. */
  lemma EchoArguments(message: Message)
    requires Split(message.content) == ["echo", "hello", "world"]
    ensures Parameters(Split(message.content), [StringParam, StringArrayParam], message, api)
            == [Text("echo"), Texts(["hello", "world"])]
  {
    assert ["echo", "hello", "world"][1..] == ["hello", "world"];
  }

  // ---------------------------------------------------------------------------
  // Consequences of the contract, for all messages

  /**
   * A private message whose selected command is not allowed in private chats
   * is ignored: the command is not called and the permission notice is not
   * sent either, whatever the author's permissions and whatever else is
   * registered.
   */
  lemma PrivateMessageToChannelOnlyCommand(
    commands: Registry, hasPermission: (User, string) -> bool, notice: Option<string>, message: Message)
    requires message.isPrivateMessage
    requires Split(message.content) != []
    requires Resolve(commands, Split(message.content)).Some?
    requires !Resolve(commands, Split(message.content)).value.command.privateMessages
    ensures HandleMessageCreate(api, commands, hasPermission, notice, message) == Ignored
  {
  }

  /**
   * The bot's mention alone never matches anything unless the mention tag
   * itself, lower-cased, is a registered command word.
   */
  lemma BareMentionIgnored(
    commands: Registry, hasPermission: (User, string) -> bool, notice: Option<string>, message: Message)
    requires message.content == api.yourself.mentionTag
    requires Lower(api.yourself.mentionTag) !in commands
    ensures HandleMessageCreate(api, commands, hasPermission, notice, message) == Ignored
  {
    assert api.yourself.mentionTag == "@bot";
    assert Split("@bot") == ["@bot"] by { assert ' ' !in "@bot"; }
  }

  /**
   * The String parameters of a dispatched command hold a word the command is
   * registered under, in the case the author typed it.
   */
  lemma CommandWordParameter(
    commands: Registry, hasPermission: (User, string) -> bool, notice: Option<string>, message: Message, i: nat)
    requires HandleMessageCreate(api, commands, hasPermission, notice, message).Dispatched?
    requires i < |HandleMessageCreate(api, commands, hasPermission, notice, message).command.paramKinds|
    requires HandleMessageCreate(api, commands, hasPermission, notice, message).command.paramKinds[i] == StringParam
    ensures var o := HandleMessageCreate(api, commands, hasPermission, notice, message);
            o.parameters[i].Text?
            && Lower(o.parameters[i].text) in commands
            && commands[Lower(o.parameters[i].text)] == o.command
  {
  }
}
