/**
 * The command dispatcher of the Javacord binding of sdcf4j: how one incoming
 * chat message becomes no action, a missing-permission notice, or one call of
 * a registered command method (now or on the client's worker pool), how the
 * call's arguments are chosen from the declared parameter types, and when the
 * command's return value is sent back as a reply.
 */
module JavacordHandler {
  import opened Wrappers
  import opened JavaString

  // ---------------------------------------------------------------------------
  // Entities of the chat client, reduced to what the dispatcher looks at

  datatype User = User(id: string, mentionTag: string)
  datatype Server = Server(id: string)
  datatype Channel = Channel(id: string, server: Server)
  /** Where a reply to a message goes: a channel or a user (a private chat). */
  datatype Receiver = ToChannel(channel: Channel) | ToUser(user: User)

  /**
   * An incoming message as the client reports it: author, text, whether it
   * came in a private chat, the channel it came in (absent for a private
   * chat) and its reply target.
   */
  datatype Message = Message(
    author: User,
    content: string,
    isPrivateMessage: bool,
    channelReceiver: Option<Channel>,
    receiver: Receiver)

  /** The client handle; `yourself` is the bot's own account. */
  datatype Api = Api(yourself: User)

  /** User.isYourself(): the author is the bot's own account. */
  predicate IsYourself(api: Api, user: User)
  {
    user.id == api.yourself.id
  }

  // ---------------------------------------------------------------------------
  // Registered commands

  /** The declared type of one parameter of a command method. */
  datatype ParamKind =
    | StringParam        // String
    | StringArrayParam   // String[]
    | MessageParam       // Message
    | ApiParam           // DiscordAPI
    | ChannelParam       // Channel
    | UserParam          // User
    | ReceiverParam      // MessageReceiver
    | ServerParam        // Server
    | OtherParam         // any other type

  /** A registered command: its annotation's settings and its method's parameter types. */
  datatype Descriptor = Descriptor(
    requiresMention: bool,
    privateMessages: bool,
    channelMessages: bool,
    requiredPermission: string,
    async: bool,
    paramKinds: seq<ParamKind>)

  /** The command map, keyed by lower-cased command word. */
  type Registry = map<string, Descriptor>

  // ---------------------------------------------------------------------------
  // Arguments of a command call

  /** A value handed to a command method; Null is Java's null. */
  datatype Value =
    | Null
    | Text(text: string)
    | Texts(texts: seq<string>)
    | MessageValue(message: Message)
    | ApiValue(api: Api)
    | ChannelValue(channel: Channel)
    | UserValue(user: User)
    | ReceiverValue(receiver: Receiver)
    | ServerValue(server: Server)

  /** The value supplied for a parameter of the given declared type. */
  function ParamValue(kind: ParamKind, splitMessage: seq<string>, message: Message, api: Api): Value
    requires |splitMessage| >= 1
  {
    match kind
    case StringParam => Text(splitMessage[0])
    case StringArrayParam => Texts(splitMessage[1..])
    case MessageParam => MessageValue(message)
    case ApiParam => ApiValue(api)
    case ChannelParam =>
      (match message.channelReceiver
       case Some(c) => ChannelValue(c)
       case None => Null)
    case UserParam => UserValue(message.author)
    case ReceiverParam => ReceiverValue(message.receiver)
    case ServerParam =>
      (match message.channelReceiver
       case Some(c) => ServerValue(c.server)
       case None => Null)
    case OtherParam => Null
  }

  /**
   * The argument list for a method with the given parameter types: one value
   * per parameter, by position, chosen by that parameter's type alone (the
   * command word as typed, the remaining words, the message, the client, the
   * channel, the author, the reply target, the channel's server). Parameters
   * of the same type get the same
   * value; a String and a String[] parameter together give back the
   * effective tokens; a value is null exactly for an unknown type, or for a
   * Channel or Server when the message has no channel.
   */
  function Parameters(splitMessage: seq<string>, kinds: seq<ParamKind>, message: Message, api: Api): (r: seq<Value>)
    requires |splitMessage| >= 1
    ensures |r| == |kinds|
    ensures forall i, j :: 0 <= i < |kinds| && 0 <= j < |kinds| && kinds[i] == kinds[j] ==> r[i] == r[j]
    ensures forall i, j :: 0 <= i < |kinds| && 0 <= j < |kinds| && kinds[i] == StringParam && kinds[j] == StringArrayParam
              ==> r[i].Text? && r[j].Texts? && [r[i].text] + r[j].texts == splitMessage
    ensures forall i :: 0 <= i < |kinds| ==>
              (r[i] == Null <==> kinds[i] == OtherParam
                                 || (kinds[i] in {ChannelParam, ServerParam} && message.channelReceiver.None?))
    ensures forall i :: 0 <= i < |kinds| && kinds[i] == StringParam ==> r[i] == Text(splitMessage[0])
    ensures forall i :: 0 <= i < |kinds| && kinds[i] == StringArrayParam ==> r[i] == Texts(splitMessage[1..])
    ensures forall i :: 0 <= i < |kinds| && kinds[i] == MessageParam ==> r[i] == MessageValue(message)
    ensures forall i :: 0 <= i < |kinds| && kinds[i] == ApiParam ==> r[i] == ApiValue(api)
    ensures forall i :: 0 <= i < |kinds| && kinds[i] == ChannelParam && message.channelReceiver.Some?
              ==> r[i] == ChannelValue(message.channelReceiver.value)
    ensures forall i :: 0 <= i < |kinds| && kinds[i] == UserParam ==> r[i] == UserValue(message.author)
    ensures forall i :: 0 <= i < |kinds| && kinds[i] == ReceiverParam ==> r[i] == ReceiverValue(message.receiver)
    ensures forall i :: 0 <= i < |kinds| && kinds[i] == ServerParam && message.channelReceiver.Some?
              ==> r[i] == ServerValue(message.channelReceiver.value.server)
  {
    seq(|kinds|, i requires 0 <= i < |kinds| => ParamValue(kinds[i], splitMessage, message, api))
  }

  /**
   * getParameters: fills a fresh array, one slot per declared parameter type.
   * A Server slot is left at its initial null when the message has no channel.
   */
  method GetParameters(splitMessage: seq<string>, kinds: seq<ParamKind>, message: Message, api: Api)
    returns (parameters: array<Value>)
    requires |splitMessage| >= 1
    ensures fresh(parameters)
    ensures parameters[..] == Parameters(splitMessage, kinds, message, api)
  {
    var args := splitMessage[1..];
    parameters := new Value[|kinds|](_ => Null);
    for i := 0 to |kinds|
      invariant forall j :: 0 <= j < i ==> parameters[j] == ParamValue(kinds[j], splitMessage, message, api)
      invariant forall j :: i <= j < |kinds| ==> parameters[j] == Null
    {
      var kind := kinds[i];
      if kind == StringParam {
        parameters[i] := Text(splitMessage[0]);
      } else if kind == StringArrayParam {
        parameters[i] := Texts(args);
      } else if kind == MessageParam {
        parameters[i] := MessageValue(message);
      } else if kind == ApiParam {
        parameters[i] := ApiValue(api);
      } else if kind == ChannelParam {
        parameters[i] := if message.channelReceiver.Some? then ChannelValue(message.channelReceiver.value) else Null;
      } else if kind == UserParam {
        parameters[i] := UserValue(message.author);
      } else if kind == ReceiverParam {
        parameters[i] := ReceiverValue(message.receiver);
      } else if kind == ServerParam {
        if message.channelReceiver.Some? {
          parameters[i] := ServerValue(message.channelReceiver.value.server);
        }
      } else {
        parameters[i] := Null;
      }
    }
  }

  // ---------------------------------------------------------------------------
  // Choosing the command

  /** The chosen command and the tokens it sees (the mention removed, if one was skipped). */
  datatype Selection = Selection(command: Descriptor, splitMessage: seq<string>)

  /**
   * The command lookup: the lower-cased first token, or else, when there is a
   * second token, the lower-cased second token but only for a command that
   * requires a mention, in which case the first token is dropped.
   * The chosen command is always the one registered under the lower-cased
   * first effective token, and a direct match always wins over the fallback.
   */
  function Resolve(commands: Registry, splitMessage: seq<string>): (r: Option<Selection>)
    requires |splitMessage| >= 1
    ensures r.Some? ==> |r.value.splitMessage| >= 1
                        && Lower(r.value.splitMessage[0]) in commands
                        && commands[Lower(r.value.splitMessage[0])] == r.value.command
    ensures r.Some? ==> r.value.splitMessage == splitMessage
                        || (r.value.splitMessage == splitMessage[1..] && r.value.command.requiresMention
                            && Lower(splitMessage[0]) !in commands)
    ensures Lower(splitMessage[0]) in commands ==> r.Some? && r.value.splitMessage == splitMessage
    ensures r.None? <==> Lower(splitMessage[0]) !in commands
                         && (|splitMessage| == 1 || Lower(splitMessage[1]) !in commands
                             || !commands[Lower(splitMessage[1])].requiresMention)
  {
    var commandString := splitMessage[0];
    if Lower(commandString) in commands then
      Some(Selection(commands[Lower(commandString)], splitMessage))
    else if |splitMessage| > 1 then
      var key := Lower(splitMessage[1]);
      if key !in commands || !commands[key].requiresMention then None
      else Some(Selection(commands[key], splitMessage[1..]))
    else
      None
  }

  /** Only a command's case-insensitive words matter: case variants pick the same command. */
  lemma ResolveIgnoresCase(commands: Registry, a: seq<string>, b: seq<string>)
    requires |a| == |b| >= 1
    requires a[1..] == b[1..]
    requires CaseVariants(a[0], b[0])
    ensures Resolve(commands, a).Some? <==> Resolve(commands, b).Some?
    ensures Resolve(commands, a).Some? ==> Resolve(commands, a).value.command == Resolve(commands, b).value.command
  {
    LowerIdentifiesCaseVariants(a[0], b[0]);
    if |a| > 1 {
      assert a[1] == a[1..][0] == b[1..][0] == b[1];
    }
  }

  // ---------------------------------------------------------------------------
  // Handling a message

  /** The mention check: a command that requires a mention needs the bot's mention tag as the literal first token. */
  predicate MentionSatisfied(api: Api, command: Descriptor, commandString: string)
  {
    command.requiresMention ==> commandString == api.yourself.mentionTag
  }

  /** The visibility check: private chats and channels must each be allowed by the command. */
  predicate Visible(command: Descriptor, isPrivateMessage: bool)
  {
    (isPrivateMessage ==> command.privateMessages) && (!isPrivateMessage ==> command.channelMessages)
  }

  /** What handling one message decides. */
  datatype Outcome =
    | Ignored
      // splitMessage[0] on an empty split: ArrayIndexOutOfBoundsException
    | IndexOutOfBounds
      // the author lacks the permission; the notice is the reply, if one is configured
    | PermissionDenied(notice: Option<string>)
      // the command is called with these arguments, on the worker pool when async
    | Dispatched(command: Descriptor, splitMessage: seq<string>, parameters: seq<Value>, async: bool)

  /**
   * handleMessageCreate. The bot's own messages are ignored; a message of
   * spaces only fails on the empty split; otherwise the message is dispatched
   * exactly when a command is found, its mention, visibility and permission
   * checks pass, and a permission notice is produced exactly when only the
   * permission check fails. The only token ever dropped is a leading bot
   * mention, the arguments are built from the effective tokens whatever the
   * async flag, and the async flag alone decides how the call runs.
   */
  function HandleMessageCreate(
    api: Api,
    commands: Registry,
    hasPermission: (User, string) -> bool,
    missingPermissions: Option<string>,
    message: Message): (o: Outcome)
    ensures IsYourself(api, message.author) ==> o == Ignored
    ensures o == IndexOutOfBounds <==>
              !IsYourself(api, message.author) && message.content != ""
              && forall i :: 0 <= i < |message.content| ==> message.content[i] == ' '
    ensures o.Dispatched? || o.PermissionDenied? <==>
              !IsYourself(api, message.author)
              && var tokens := Split(message.content);
              |tokens| >= 1 && Resolve(commands, tokens).Some?
              && MentionSatisfied(api, Resolve(commands, tokens).value.command, tokens[0])
              && Visible(Resolve(commands, tokens).value.command, message.isPrivateMessage)
    ensures o.PermissionDenied? ==>
              var tokens := Split(message.content);
              |tokens| >= 1 && Resolve(commands, tokens).Some?
              && !hasPermission(message.author, Resolve(commands, tokens).value.command.requiredPermission)
              && o.notice == missingPermissions
    ensures o.Dispatched? ==>
              var tokens := Split(message.content);
              && |tokens| >= 1
              && Resolve(commands, tokens) == Some(Selection(o.command, o.splitMessage))
              && hasPermission(message.author, o.command.requiredPermission)
              && o.async == o.command.async
              && |o.splitMessage| >= 1
              && o.parameters == Parameters(o.splitMessage, o.command.paramKinds, message, api)
    ensures o.Dispatched? ==>
              var tokens := Split(message.content);
              && (o.command.requiresMention ==> tokens[0] == api.yourself.mentionTag)
              && (o.splitMessage == tokens
                  || (o.splitMessage == tokens[1..] && tokens[0] == api.yourself.mentionTag))
  {
    if IsYourself(api, message.author) then Ignored
    else
      var splitMessage := Split(message.content);
      if |splitMessage| == 0 then IndexOutOfBounds
      else
        var commandString := splitMessage[0];
        match Resolve(commands, splitMessage)
        case None => Ignored
        case Some(selection) =>
          var annotation := selection.command;
          if annotation.requiresMention && commandString != api.yourself.mentionTag then Ignored
          else if message.isPrivateMessage && !annotation.privateMessages then Ignored
          else if !message.isPrivateMessage && !annotation.channelMessages then Ignored
          else if !hasPermission(message.author, annotation.requiredPermission) then
            PermissionDenied(missingPermissions)
          else
            var parameters := Parameters(selection.splitMessage, annotation.paramKinds, message, api);
            Dispatched(annotation, selection.splitMessage, parameters, annotation.async)
  }

  // ---------------------------------------------------------------------------
  // Calling the command method

  /** A Java object as far as a reply needs it: null, or an object with its toString() text. */
  datatype Object = NullRef | Obj(toString: string)

  /** String.valueOf(Object). */
  function ValueOf(x: Object): string
  {
    match x
    case NullRef => "null"
    case Obj(t) => t
  }

  /**
   * How the reflective call of the command method ended: it returned a
   * value, it threw IllegalAccessException or InvocationTargetException
   * (caught and logged; every exception the command method itself throws
   * arrives wrapped in the latter), or it threw anything else, such as
   * IllegalArgumentException for a null passed to a primitive parameter
   * (not caught).
   */
  datatype Invocation = Returned(result: Object) | AccessOrTargetFailure | OtherFailure

  /** What invokeMethod does after the call. */
  datatype InvokeOutcome = Reply(text: string) | NoReply | Propagated

  /**
   * invokeMethod: replies exactly when the call returned a non-null value,
   * with that value's String.valueOf text (an empty text included); a
   * caught failure is silent and any other exception passes through.
   */
  function InvokeMethod(invocation: Invocation): (r: InvokeOutcome)
    ensures r.Reply? <==> invocation.Returned? && invocation.result != NullRef
    ensures r.Reply? ==> r.text == ValueOf(invocation.result) && r.text == invocation.result.toString
    ensures r.Propagated? <==> invocation.OtherFailure?
  {
    var reply := if invocation.Returned? then invocation.result else NullRef;
    if invocation.OtherFailure? then Propagated
    else if reply != NullRef then Reply(ValueOf(reply))
    else NoReply
  }

  /**
   * The replies one message causes, given how the command call (if any)
   * ends: at most one; the notice when permission is denied and a notice is
   * configured; the command's result when it is dispatched and returns
   * non-null; nothing in every other case.
   */
  function RepliesSent(o: Outcome, invocation: Invocation): (replies: seq<string>)
    ensures |replies| <= 1
    ensures o.Ignored? || o.IndexOutOfBounds? ==> replies == []
    ensures o.PermissionDenied? ==> (replies != [] <==> o.notice.Some?)
    ensures o.PermissionDenied? && o.notice.Some? ==> replies == [o.notice.value]
    ensures o.Dispatched? ==> (replies != [] <==> invocation.Returned? && invocation.result != NullRef)
    ensures o.Dispatched? && replies != [] ==> replies == [invocation.result.toString]
  {
    match o
    case Ignored => []
    case IndexOutOfBounds => []
    case PermissionDenied(notice) => if notice.Some? then [notice.value] else []
    case Dispatched(_, _, _, _) =>
      match InvokeMethod(invocation)
      case Reply(text) => [text]
      case NoReply => []
      case Propagated => []
  }
}
