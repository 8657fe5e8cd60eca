# sdcf4j for Javacord: the command dispatcher, in Dafny

sdcf4j is a small command framework for Discord bots: a bot author annotates
methods with `@Command`, the framework keeps a map from lower-cased command
word to command, and a client-specific handler turns each incoming chat
message into at most one call of such a method. This project models the
Javacord handler, `JavacordHandler`, and proves what it does with a message:

- **handleMessageCreate**: ignore the bot's own messages; split the text on a
  single space (Java's `String.split(" ")`, with its quirks: leading and
  inner empty tokens kept, trailing ones dropped, `""` giving `[""]`, and a
  text of spaces only giving no tokens, after which reading the first token
  throws); look up the lower-cased first word, or else, for commands that
  require a mention, the second word after dropping the first; check the
  mention against the *original* first token; check private/channel
  visibility; check the permission (replying with the configured notice, if
  any); build the arguments; call the command now or on the worker pool.
- **getParameters**: one argument per declared parameter type, by position
  (the command word, the remaining words, the message, the client, the
  channel, the author, the reply target, the server, or null).
- **invokeMethod**: reply with `String.valueOf(result)` exactly when the call
  returned a non-null value.

Files:

- `wrappers.dfy`: `Option`, for Java references that may be null.
- `java_string.dfy`: `toLowerCase` (ASCII letters), `split(" ")` as
  `SplitAll` (cut at every space) followed by `DropTrailingEmpty`, except
  that a text without a space comes back whole (so `""` gives `[""]`), and
  `String.join(" ", ...)` as `Join`; round-trip lemmas in both directions.
- `javacord_handler.dfy`: entities, command descriptors, `Resolve` (the
  lookup with the mention fallback), `HandleMessageCreate` (the whole
  decision, as a function returning an `Outcome`), `ParamValue`/`Parameters`
  (the argument table) and the imperative `GetParameters` that fills a fresh
  array and is proved equal to it, `InvokeMethod` and `RepliesSent`.
- `scenarios.dfy`: concrete messages (`"@bot ping"`, `"echo hello world"`,
  a permission-guarded command, split edge cases) and consequences of the
  contract for all messages.

Three behaviours of the code are easy to miss; the model follows the code
in each:

- The text is split on a literal single space, not on any whitespace, so
  `"a  b"` has an empty middle token and a tab does not separate words.
- A reply is sent for every non-null result, an empty string included; only
  null suppresses it.
- A message whose text is one or more spaces only throws
  `ArrayIndexOutOfBoundsException` at the first-token read; the model has an
  `IndexOutOfBounds` outcome for it rather than treating it as "no match".

## Model

| member | source | states |
|---|---|---|
| `JavaString.Lower` | sdcf4j-javacord/src/main/java/de/btobastian/sdcf4j/handler/JavacordHandler.java:95 | lower-casing keeps the length and lower-cases each character in place |
| `JavaString.LowerIdentifiesCaseVariants` | sdcf4j-javacord/src/main/java/de/btobastian/sdcf4j/handler/JavacordHandler.java:95 | two words have the same lower-cased key exactly when, position by position, their characters are equal or are the upper- and lower-case forms of one letter |
| `JavaString.Split` | sdcf4j-javacord/src/main/java/de/btobastian/sdcf4j/handler/JavacordHandler.java:93 | no token holds a space; a text without a space comes back whole; the last token is non-empty whenever there are two or more tokens, or a space was cut at (trailing empty tokens are dropped); the split is empty exactly when the text is non-empty and all spaces |
| `JavaString.SplitJoinRoundTrip` | sdcf4j-javacord/src/main/java/de/btobastian/sdcf4j/handler/JavacordHandler.java:93 | joining the tokens with single spaces gives the text back, minus only the trailing spaces split dropped |
| `JavaString.SplitOfJoin` | sdcf4j-javacord/src/main/java/de/btobastian/sdcf4j/handler/JavacordHandler.java:93 | split undoes join for space-free tokens whose last token is non-empty |
| `JavacordHandler.Resolve` | sdcf4j-javacord/src/main/java/de/btobastian/sdcf4j/handler/JavacordHandler.java:94-108 | a direct match on the lower-cased first token always wins and keeps all tokens; otherwise only a mention-requiring command under the second token is taken, dropping the first token; nothing is found exactly when neither applies; the chosen command is always the one registered under the lower-cased first effective token |
| `JavacordHandler.ResolveIgnoresCase` | sdcf4j-javacord/src/main/java/de/btobastian/sdcf4j/handler/JavacordHandler.java:95-99 | messages whose first word differs only in case select the same command |
| `JavacordHandler.HandleMessageCreate` | sdcf4j-javacord/src/main/java/de/btobastian/sdcf4j/handler/JavacordHandler.java:89-137 | own messages are ignored; all-space text fails on the empty split; a call or a notice happens exactly when a command is found and passes the mention check (original first token equals the bot's mention tag) and the visibility check; the notice (the configured one, possibly none) exactly when the permission check then fails; a call exactly when it passes, with the arguments built from the effective tokens and the async flag taken from the command; the only token ever dropped is a leading bot mention |
| `JavacordHandler.Parameters` | sdcf4j-javacord/src/main/java/de/btobastian/sdcf4j/handler/JavacordHandler.java:168-198 | one argument per declared type, by position, fixed by that type: a String gets the first effective token as typed, a String[] the remaining tokens in order, Message, DiscordAPI, User and MessageReceiver the message, the client, the author and the reply target, Channel and Server the channel and its server when there is one; an argument is null exactly for an unknown type, or a Channel or Server without a channel; a String and a String[] argument together rebuild the effective tokens |
| `JavacordHandler.GetParameters` | sdcf4j-javacord/src/main/java/de/btobastian/sdcf4j/handler/JavacordHandler.java:168-198 | the loop fills a fresh array equal, slot by slot, to the argument table, a Server slot staying at its initial null when there is no channel |
| `JavacordHandler.InvokeMethod` | sdcf4j-javacord/src/main/java/de/btobastian/sdcf4j/handler/JavacordHandler.java:146-157 | a reply is sent exactly when the call returned a non-null value, and its text is that value's `String.valueOf`; access and invocation-target failures are silent; any other exception passes through |
| `JavacordHandler.RepliesSent` | sdcf4j-javacord/src/main/java/de/btobastian/sdcf4j/handler/JavacordHandler.java:119-155 | one message causes at most one reply: the notice when permission is denied and a notice is configured, the command's non-null result (its `toString` text) when it is called, nothing otherwise |
| `Scenarios.EmptyContentHasOneEmptyToken` | sdcf4j-javacord/src/main/java/de/btobastian/sdcf4j/handler/JavacordHandler.java:93-94 | an empty text splits to one empty token, so the first-token read succeeds |
| `Scenarios.SpacesOnlySplitToNothing` | sdcf4j-javacord/src/main/java/de/btobastian/sdcf4j/handler/JavacordHandler.java:93-94 | a text of spaces splits to no tokens, so the first-token read throws |
| `Scenarios.EmptyTokensKeptExceptTrailing` | sdcf4j-javacord/src/main/java/de/btobastian/sdcf4j/handler/JavacordHandler.java:93 | `" a  b "` splits to `["", "a", "", "b"]` |
| `Scenarios.EchoSplit` | sdcf4j-javacord/src/main/java/de/btobastian/sdcf4j/handler/JavacordHandler.java:93 | `"echo hello world"` splits to its three words |
| `Scenarios.WordSplitsToItself` | sdcf4j-javacord/src/main/java/de/btobastian/sdcf4j/handler/JavacordHandler.java:93-94 | a word without spaces splits to itself, so it is its own first token |
| `Scenarios.MentionPingSplit` | sdcf4j-javacord/src/main/java/de/btobastian/sdcf4j/handler/JavacordHandler.java:93 | `"@bot ping"` splits to the mention and the command word |
| `Scenarios.MentionPrefixedCommandDispatches` | sdcf4j-javacord/src/main/java/de/btobastian/sdcf4j/handler/JavacordHandler.java:96-112 | a message splitting to `["@bot", "ping"]` (as `"@bot ping"` does) calls a mention-requiring `ping` with effective tokens `["ping"]` |
| `Scenarios.MentionPrefixedPlainCommandIgnored` | sdcf4j-javacord/src/main/java/de/btobastian/sdcf4j/handler/JavacordHandler.java:98-102 | the same message does nothing when `ping` does not require a mention |
| `Scenarios.MentionRequiredButAbsentIgnored` | sdcf4j-javacord/src/main/java/de/btobastian/sdcf4j/handler/JavacordHandler.java:110-112 | `"PING"` alone does nothing for a mention-requiring `ping`, even though its lookup succeeds |
| `Scenarios.UnknownWordIgnored` | sdcf4j-javacord/src/main/java/de/btobastian/sdcf4j/handler/JavacordHandler.java:105-107 | a single unregistered word does nothing |
| `Scenarios.MixedCaseCommandDispatches` | sdcf4j-javacord/src/main/java/de/btobastian/sdcf4j/handler/JavacordHandler.java:95 | `"PiNg"` finds `ping`, and its String argument keeps the typed case |
| `Scenarios.AdminOnlyCommand` | sdcf4j-javacord/src/main/java/de/btobastian/sdcf4j/handler/JavacordHandler.java:119-135 | without the required permission the configured notice is the outcome and no call happens; with it the command is called |
| `Scenarios.EchoArguments` | sdcf4j-javacord/src/main/java/de/btobastian/sdcf4j/handler/JavacordHandler.java:169-177 | for a message splitting to `["echo", "hello", "world"]`, a (String, String[]) method gets `"echo"` and `["hello", "world"]` |
| `Scenarios.PrivateMessageToChannelOnlyCommand` | sdcf4j-javacord/src/main/java/de/btobastian/sdcf4j/handler/JavacordHandler.java:113-124 | in any registry, a private message whose selected command is closed to private chats is ignored: no call and no permission notice, whatever the permissions |
| `Scenarios.BareMentionIgnored` | sdcf4j-javacord/src/main/java/de/btobastian/sdcf4j/handler/JavacordHandler.java:96-107 | the bot's mention alone does nothing unless the mention tag itself is a command word |
| `Scenarios.CommandWordParameter` | sdcf4j-javacord/src/main/java/de/btobastian/sdcf4j/handler/JavacordHandler.java:175 | a String argument of a called command is a word that command is registered under, in the typed case |

## Left out

- The constructor (lines 53-60) only registers a listener with the Javacord client; the model starts at the call it makes.
- `addPermission` and `hasPermission(User, ...)` (lines 68-81) delegate to `CommandHandler`, which is not part of this model; the permission check is a predicate parameter of `HandleMessageCreate`, and the rule that an empty permission always passes belongs to that predicate.
- The command map is inherited from `CommandHandler` and is an input (`Registry`); how commands are registered, and what happens on duplicate words, is not modelled.
- The global missing-permissions notice (`Sdcf4jMessage.MISSING_PERMISSIONS`) is an `Option<string>` input.
- Submission to the client's thread pool (lines 127-133) is the `async` flag of the `Dispatched` outcome; when the call runs, in what order, and what happens to an exception thrown on the pool are concurrency concerns outside the model.
- Reflection is abstracted: the declared parameter types are a `seq<ParamKind>`, and the outcome of `Method.invoke` is an `Invocation` value supplied by the caller of `InvokeMethod`.
- The warning logged at line 152 is logging only.
- An exception from `Method.invoke` other than the two caught at line 151 (for instance `IllegalArgumentException` when an unknown parameter type is a primitive and receives null) is the `Propagated` outcome of `InvokeMethod`; that it then leaves `handleMessageCreate` on the synchronous path, and is kept unobserved by the worker pool on the asynchronous one, is not modelled further.
- Sending a reply is represented by the reply text (`InvokeMethod`, `RepliesSent`); failures of the send itself are not modelled.
- `JavaString.Lower`: lower-cases the ASCII letters only; Java's `toLowerCase()` follows the default locale and all of Unicode.
- Javacord entities keep only what the handler reads: a user's id and mention tag, a channel's server, a message's author, text, private flag, channel and reply target. `isYourself()` is modelled as equality of the author's id with the bot's, and the private flag and the channel are taken as the client reports them, without relating them to each other.
