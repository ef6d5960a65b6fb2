# Queue bot: a Dafny model of the request queue

This project models the core of a chat bot (`index.js`) that keeps one
shared, ordered queue of product requests. Each request pairs the user who
was mentioned with a product text. A small set of allowed users edits the
queue through prefixed text commands:

- `.queue-add @user <text>` appends a request.
- `.queue-view` lists the requests, numbered from 1.
- `.queue-remove <n>` removes the n-th request.
- `.queue-clear` empties the queue.

After every change the whole queue is written to a backing file, and the
queue is read back from that file at startup. The one exception is a
`queue-remove` of an entry that has no user: the queue shrinks, but the
handler throws before the save, so the file is not rewritten.

Modules:

- `Wrappers` (`wrappers.dfy`): `Option`, which stands for JavaScript's
  `undefined` and `NaN`.
- `Strings` (`strings.dfy`): the string built-ins the handler uses, namely
  `startsWith`, `slice`, `trim`, `split(/ +/)`, `join(' ')` and
  `toLowerCase`, each written as a function. Lemmas relate `split` and
  `join`.
- `Numbers` (`numbers.dfy`): `parseInt` with no radix, and the decimal
  rendering of an integer used by the numbered listing.
- `QueueBot` (`queue_bot.dfy`): the entities, the tokeniser and the class
  `Bot`. `Bot` has the mutable `queue`, a ghost `disk` for the backing file
  and a ghost count of saves. It has one method per command, plus
  `SaveQueueToFile`, the startup constructor `Load` and the
  `messageCreate` handler `HandleMessage`. The effect of each command is
  defined once, as a predicate over two `Snapshot`s (before and after).
  Both the command method and the handler are proved against that
  predicate.

Inputs from outside are parameters. These are: the message (author id,
bot flag, text content, mentioned users), the allow-list, what the backing
file held at startup, and whether each file write succeeds.

Behaviour of the code that is easy to miss:

- `queue-add` performs no mention check. The entry's user is
  `mentions.users.first()`, which may be undefined (`None` here).
- The product is every word after the command, joined with single spaces,
  so runs of spaces shrink to one. That includes the text of the mention
  itself (`<@id>`), because `args` still holds it.
- The queue handler has no `try`/`catch`, so no error reply is ever sent. If the removed entry has no user,
  `queue-remove` throws a `TypeError` at `removedEntry.user.tag`. This
  happens after the splice and before the save, so the queue in memory has
  shrunk but the file still holds the entry. `ThrownRemovalDiverges` and
  `HandleMessage` prove this outcome (`Threw`). Starting from a state
  where the file equals the queue, every command that does not throw
  and whose write succeeds leaves the file equal to the queue
  (`StepsKeepSync`, `HandleMessage`).
- The index is read with JavaScript's `parseInt`, not a strict integer
  check. Leading whitespace and a sign are accepted, a `0x` prefix
  switches to base 16, and text after the digits is ignored. So `2abc`
  and `0x2` both remove entry 2.

## Model

| member | source | states |
|---|---|---|
| `Strings.StartsWith` | index.js:40 | the message starts with the prefix exactly when it is the prefix followed by some text |
| `Strings.Slice` | index.js:47 | `slice(1)` gives the text after the prefix, or the empty text when the message is shorter |
| `Strings.Trim` | index.js:47 | the result is one contiguous piece of the input: only whitespace is cut, from either end, and neither end of the result is whitespace |
| `Strings.Split` | index.js:47 | splitting on runs of spaces gives at least one piece, and no piece contains a space |
| `Strings.SplitUnpadded` | index.js:47 | a non-empty text with no space at either end splits into non-empty words |
| `Strings.Join` | index.js:52 | the joined text starts with the first word and is one character longer than the words for each gap between them |
| `Strings.JoinSplitCollapses` | index.js:47-52 | for every text, joining the pieces of the split with single spaces gives the text with each run of spaces shortened to one space (`CollapseSpaces`, defined character by character) |
| `Strings.SplitJoin` | index.js:47-52 | splitting the single-space join of non-empty, space-free words gives back those words |
| `Strings.ToLower` | index.js:48 | the result has no capital A-Z and equals the input up to case (each character unchanged, or a capital replaced by its small letter), which fixes it uniquely |
| `Strings.LowerIdentifiesCase` | index.js:48 | two words lowercase to the same text exactly when, position by position, the characters are equal or are a capital and its small letter (case-insensitive commands) |
| `Numbers.Digits` | index.js:72 | the rendering of a natural number is a non-empty string of decimal digits, with a leading `0` only for zero |
| `Numbers.DecimalString` | index.js:72 | the rendering of an integer has a `-` exactly for negatives, then non-empty decimal digits without a leading zero (except for 0) whose value is the integer's magnitude |
| `Numbers.ParseInt` | index.js:80-82 | `parseInt` gives a number (not NaN) only for a present argument that, after leading whitespace, starts with a digit or a sign and a digit; a negative result needs a leading `-`. A missing argument is NaN |
| `Numbers.ParseUnsignedDecimal` | index.js:80 | after any leading whitespace, `parseInt` reads a run of decimal digits, leading zeros included, as its decimal value, whatever non-digit text follows (`\t02 x` gives 2). The one exception is a lone `0` followed by `x` or `X`, a base-16 prefix |
| `Numbers.ParseSignedDecimal` | index.js:80 | after any leading whitespace, one `-` before such a run of digits negates its value and one `+` keeps it (` +2` gives 2, `-02` gives -2), with the same exception |
| `Numbers.ParseDecimalString` | index.js:80 | `parseInt` reads back the decimal rendering of every integer, also when text not starting with a digit follows it. The one exception is `0` followed by `x` or `X`, which `parseInt` reads as a base-16 prefix |
| `QueueBot.Tokenise` | index.js:47-48 | the command is one word with no capital letter, and the command and arguments rejoined with single spaces equal the trimmed text after the prefix, with runs of spaces shortened, up to case; from the end of the command word on they are equal character for character, so the arguments keep their case |
| `QueueBot.TokeniseArgsAreWords` | index.js:47-48 | every argument after the command word is a non-empty word with no space |
| `QueueBot.TokeniseCommandLine` | index.js:47-52 | when the trimmed text after the prefix is `<word><spaces><rest>`, the command is the lowercased word and the joined arguments (the product) are `rest` with each run of spaces shortened to one |
| `QueueBot.FirstMention` | index.js:51 | the entry's user is undefined exactly when the message mentions nobody, and otherwise is the first mentioned user |
| `QueueBot.FirstArg` | index.js:80 | `args[0]` is undefined exactly when there is no argument, and otherwise is the first argument |
| `QueueBot.Label` | index.js:72 | the name of the k-th field is the decimal digits of k+1, with no leading zero, followed by a dot |
| `QueueBot.LabelIsRemoveIndex` | index.js:70-82 | the label of the k-th field in the listing parses back to k+1, which is an index that `queue-remove` accepts for a queue with more than k entries |
| `QueueBot.Restored` | index.js:18-20 | the queue at startup is the saved list, or empty when the file is missing or unreadable |
| `QueueBot.RemoveAtShifts` | index.js:87 | a splice at 1-based i keeps the entries before i in place and moves the later ones up by one. Only `old[i-1]` is lost |
| `QueueBot.ThrownRemovalDiverges` | index.js:87-89 | after a removal that throws, the queue and the file differ. The file still holds the removed entry, so a restart brings it back |
| `QueueBot.StepsKeepSync` | index.js:50-99 | from a synced state, with a successful write, add, non-throwing remove and clear leave the file equal to the queue. Clear leaves it empty |
| `QueueBot.RestartAfterSave` | index.js:18-20 | loading a file written by a successful save gives the queue that was saved |
| `QueueBot.Bot.Load` | index.js:16-28 | at startup the queue is the file's list. A missing file is created holding the empty list. An unreadable file gives the empty queue and is left as it was |
| `QueueBot.Bot.SaveQueueToFile` | index.js:107-114 | every call counts as exactly one save. A successful write makes the file equal the queue. A failed write is swallowed |
| `QueueBot.Bot.QueueAdd` | index.js:50-57 | appends exactly `Entry(user, words joined by spaces)` after the old entries, replies with the product, and saves once |
| `QueueBot.Bot.QueueView` | index.js:58-78 | changes nothing. On an empty queue it replies with the empty notice. Otherwise it gives one field per entry, in order, labelled `k+1.` with the entry's product as value |
| `QueueBot.Bot.Splice` | index.js:87 | returns `old[i-1]` and leaves `old[..i-1] + old[i..]` |
| `QueueBot.Bot.QueueRemove` | index.js:79-89 | a NaN index, or one that is ≤ 0 or past the end, gives "Invalid index" and changes neither the queue nor the file. Otherwise the entry at i is spliced out. If it has a user, the reply names the user's tag and one save runs; if not, the handler throws with no save |
| `QueueBot.Bot.QueueClear` | index.js:90-99 | an empty queue gives "already empty" with no change and no save. Otherwise the queue becomes empty, one save runs, and the reply confirms the clear |
| `QueueBot.Bot.HandleMessage` | index.js:39-101 | bot authors and unprefixed messages: nothing. Senders outside the allow-list: only the rejection. An unknown command: nothing. The four commands each have their own effect. The file stays equal to the queue unless a write fails or a removal throws |

## Left out

- The discord.js client: intents, partials, `login`, and the `ready` handler's activity and logging. These are transport code. The `ready` handler's log line reads `entry.user.tag` for every loaded entry, so a saved entry without a user would also throw there. That is not modelled.
- Reply delivery: `message.reply` promises and their failures. The model keeps only which reply is sent, as a `Reply` value.
- The embed's title, colour, thumbnail, footer and timestamp. Only the numbered name/value fields are kept.
- `QueueBot.Bot.QueueView`: the embed builder's own limits (at most 25 fields, field values of 1 to 1024 characters) belong to discord.js, which is not part of this model. A bare `.queue-add` stores an empty product, and a queue can hold more than 25 entries. With either, the running bot's `queue-view` throws inside `addFields` and sends no reply, while the model still lists every field.
- The JSON text of the file and the real `fs` calls. What the startup read gives is the `FileState` parameter of `Bot.Load`. The model does not cover a file that parses to something other than a list of entries, or how a platform user object survives `JSON.stringify` and `JSON.parse`.
- `QueueBot.Entry`, `QueueBot.UserRef`: an entry stores a snapshot of the mentioned user, taken at `queue-add`. The code stores a live reference to the platform's user object. The `.tag` read at removal (index.js:88) and each save therefore see that object as it is at that moment. The model can name a tag in `Removed` that the running bot would no longer print.
- `QueueBot.Bot.SaveQueueToFile`: after a failed write, the file's contents are left unspecified. `writeFileSync` may fail before or after truncating the file. Failure of the startup write of `[]` is not modelled.
- The `beforeExit` flush. It is process lifecycle.
- Dynamic command loading from `./Commands` and the second `messageCreate` handler. They dispatch to modules that are not part of this model.
- What becomes of the process after the `queue-remove` `TypeError`. It is an unhandled promise rejection, which the model records only as the `Threw` outcome.
- `config.json`. The allow-list is a constructor parameter.
- `Strings.ToLower`: only ASCII letters are lowercased. The four command names are ASCII, and the model does not follow Unicode case mapping for other characters.
- `Numbers.ParseInt`: the value is an unbounded integer. JavaScript numbers are doubles, so values beyond 2^53 are rounded. Any such value is also far beyond the queue length, so the index check rejects it either way.
- Strings are sequences of Unicode characters, not UTF-16 code units. The model works only with the ASCII prefix, spaces and whitespace, so this does not change any result.
