# TRC20 wallets bot — a Dafny model

The bot lets a fixed allow-list of Telegram users keep a shared, in-memory registry of named
TRC20 wallet addresses and ask for the total USD balance of all of them. This project models
the logic of `index.js`:

- the **wallet registry**: a JavaScript `Map` from wallet name to address, kept in insertion
  order (module `Registry`, a sequence of `Entry` values with unique names);
- the **adding-mode state machine**: `/add` and `/done` switch one process-wide flag, and in
  adding mode free text `<walletName> <address> ...` is parsed and stored (module `Bot`,
  including the allow-list check `isUserAllowed`, `/start`, `/list` and `/remove`);
- the **text handling** the free-text handler relies on: JavaScript `trim`, `startsWith` and
  `split(/\s+/)` over the JavaScript white-space set (module `Text`);
- the **balance aggregation** of `/balance`: a sequential loop over the registry that looks up
  one balance per wallet in insertion order, numbers each line with `numberToEmoji`, and sums
  the amounts (modules `Fetch`, `Emoji`, `Aggregation`).

The state of the bot is an explicit record `State(wallets, adding)`. Each handler is a pure
function from the state and one already-routed chat event to the next state and the replies
it sends. Replies are tags (`AddPrompt`, `NameExists`, `Added(name, address)`, ...) that stand
for the texts the bot sends. `/balance` is a method. It takes the balance service as a function
from address to `ApiResponse`, and it returns the addresses it looked up, in order, together
with its replies.

A failed lookup is not counted as zero. The `catch` block of `fetchBalance` (index.js:36-38)
only logs, so the lookup resolves to `undefined`. Then `currBalance.toFixed(0)` throws, and
the whole reply becomes the generic error. `Fetch.FetchBalance` returns `None` for a failed
request, and `Aggregation.HandleBalance` then answers `BalanceError` after looking up every
wallet up to and including the failing one. A `null` or non-numeric `totalAssetInUsd` aborts
the same way. A missing field reads as `0`.

## Model

| member | source | states |
|---|---|---|
| Text.Trim | index.js:86 | `trim()` returns a slice of the text with white space removed from both ends only; the result neither starts nor ends with white space |
| Text.TrimIdempotent | index.js:86 | trimming twice is trimming once (so `/remove` and the free-text handler see a stable name) |
| Text.Split | index.js:90 | `split(/\s+/)` returns at least one field; no field contains white space; the first field is the text up to the first white space; the text itself is the only field exactly when it has no white space |
| Text.SplitCountTrimmed | index.js:90-91 | on trimmed text, `parts.length >= 2` exactly when the text contains white space |
| Text.SplitTrimmedFields | index.js:90-96 | on trimmed non-empty text every field is non-empty |
| Text.SplitJoinRoundTrip | index.js:90-96 | splitting tokens joined by arbitrary non-empty white-space runs gives the tokens back |
| Text.SplitTrimmedMessage | index.js:86-90 | with any white space before, between and after the tokens, `trim` then `split(/\s+/)` yields exactly the tokens |
| Text.SplitDecomposes | index.js:90 | every trimmed non-empty text is its fields joined by the white-space runs between them, so the lemmas about joined tokens cover every such text |
| Emoji.DecimalString | index.js:154 | `num.toString()` is a non-empty digit string with a leading `0` only for zero |
| Emoji.DecimalRoundTrip | index.js:154 | reading the decimal string back gives the number |
| Emoji.DecimalLength | index.js:154 | a positive number has as many decimal digits as its string has characters: 10^(len-1) <= n < 10^len |
| Emoji.Keycap | index.js:153 | the table entry for a digit is that digit, VARIATION SELECTOR-16, COMBINING ENCLOSING KEYCAP |
| Emoji.NumberToEmoji | index.js:152-155 | the output has exactly three characters per decimal digit, one emoji per digit |
| Emoji.NumberToEmojiBlocks | index.js:152-155 | the i-th emoji of the output is the table emoji of the i-th digit, in order |
| Emoji.NumberToEmojiRoundTrip | index.js:152-155 | decoding the emoji output gives the number back, so distinct indices render differently |
| Registry.IndexOf | index.js:103 | `wallets.has(name)`: finds the first entry with that name, or reports that no entry has it |
| Registry.Get | index.js:103 | a lookup yields a value exactly when the name is present |
| Registry.Set | index.js:106 | `wallets.set` on a new name appends it at the end of the order, and on any name makes the lookup return the new address; other lookups and name uniqueness are kept |
| Registry.IndexOfSnoc | index.js:106 | a lookup in a registry with one more entry at the end finds the old match first, else the new entry |
| Registry.GetEntry | index.js:9 | with unique names every entry is found under its own name |
| Registry.Delete | index.js:130 | `wallets.delete` keeps only entries of the original registry, none named as deleted |
| Registry.DeleteRemovesName | index.js:130 | after `delete(name)` the name is absent |
| Registry.DeleteKeepsOthers | index.js:130 | `delete(name)` leaves the lookup of every other name unchanged |
| Registry.DeleteUnique | index.js:130 | `delete` keeps names unique |
| Registry.DeleteAbsent | index.js:130 | deleting an absent name changes nothing |
| Registry.DeleteAt | index.js:129-131 | deleting a present name removes exactly that entry and keeps the order of the others |
| Fetch.FetchBalance | index.js:22-39 | a lookup resolves to `undefined` exactly when the request failed, passes a present `totalAssetInUsd` through, and resolves to 0 exactly for a missing field or a literal 0 |
| Fetch.Amount | index.js:162 | `toFixed(0)` succeeds exactly on a number |
| Fetch.AmountOfCases | index.js:22-39 | a wallet yields no amount exactly when its request failed or its field is not a number; a missing field yields 0 |
| Bot.AllowedExactly | index.js:8 | the allow-list holds exactly the four ids of the source, and `isUserAllowed` accepts exactly those |
| Bot.HandleStart | index.js:45-60 | `/start` never changes the state; it greets an allowed user and sends anyone else the access-denied notice |
| Bot.HandleAdd | index.js:62-69 | `/add` from an allowed user always turns adding mode on; anyone else is denied and nothing changes |
| Bot.HandleDone | index.js:71-79 | `/done` never turns adding mode on; an allowed user leaves adding mode (warned if not in it); an unknown sender is ignored silently |
| Bot.ParseMessage | index.js:86-101 | a message is a command exactly when its trimmed text starts with `/`; it is too short exactly when the trimmed non-command text has no white space; otherwise it has at least two fields and is a wallet exactly when the second field starts with `T`; a wallet's name and address are the first two fields of the trimmed text, a non-empty name and a `T` address without white space |
| Bot.ParseTrimmed | index.js:88-101 | the same classification for text that is already trimmed |
| Bot.HandleMessage | index.js:81-109 | free text never changes the mode; it is ignored when the sender is not allowed, outside adding mode, or for a command; it either leaves the registry unchanged or appends exactly one entry under a new name, replies `Added`, and that entry is the parsed name and address; it keeps the registry invariant |
| Bot.Respond | index.js:91-108 | in adding mode a too-short message gets exactly the format warning, a non-`T` address exactly the invalid-address notice, a present name exactly the duplicate notice, all changing nothing; exactly a wallet under a new name grows the registry, by that entry at the end |
| Bot.ListLines | index.js:115 | `/list` has one `name: address` line per entry, in insertion order |
| Bot.HandleList | index.js:111-122 | `/list` never changes the state, answers the no-wallets notice on an empty registry and otherwise lists every entry |
| Bot.HandleRemove | index.js:124-135 | `/remove` of a present trimmed name deletes it and reports it; of an absent name it changes nothing and reports not-found; other lookups, the mode and the invariant are kept |
| BotProperties.RunPreservesValid | index.js:62-135 | after any sequence of handled events the registry still has unique names and well-formed entries |
| BotProperties.ReachableValid | index.js:8-10 | every state reachable from the empty start state satisfies the registry invariant |
| BotProperties.AddThenDone | index.js:62-79 | `/add` then `/done` by an allowed user leaves adding mode with the registry untouched; a further `/done` only warns |
| BotProperties.ParseWords | index.js:86-101 | tokens with any white space around and between them parse as name = first token and address = second token, or as a bad address when the second token lacks the `T` |
| BotProperties.ParseIgnoresExtraWords | index.js:90-96 | tokens after the second, and the white space around and between tokens, do not change the parse |
| BotProperties.MessageNeedsTwoTokens | index.js:88-94 | in adding mode, the format warning is sent exactly for non-command text without white space after trimming, and the state is then unchanged |
| BotProperties.MessageWords | index.js:96-108 | for tokens with any spacing: a non-`T` address is rejected; a duplicate name is reported and changes nothing; otherwise the entry is appended at the end |
| BotProperties.AddTwiceKeepsFirst | index.js:103-107 | adding `name a1` then `name a2` reports the second as existing and the name keeps `a1` |
| BotProperties.AddedListedLast | index.js:103-120 | after any step that adds a wallet, `/list` shows the earlier lines unchanged and the new wallet last |
| BotProperties.MessageListedLast | index.js:81-120 | after a free-text message `<name> <address> ...` adds a wallet, `/list` shows the earlier lines unchanged and the new wallet last |
| BotProperties.RemoveKeepsOrder | index.js:127-131 | `/remove` of a present name deletes exactly that entry, keeps the others in order, and leaves no entry with that name |
| Aggregation.Lines | index.js:158-163 | line i of the reply carries the emoji of i+1, the i-th wallet's name and address, and its amount |
| Aggregation.FirstFailure | index.js:157-166 | the first wallet whose lookup cannot be formatted, with every earlier wallet priced |
| Aggregation.TotalSnoc | index.js:161 | the running total after one more wallet is the previous total plus that wallet's amount |
| Aggregation.TotalIsSumOfLines | index.js:158-164 | the total in the reply is the sum of the amounts on its lines |
| Aggregation.HandleBalance | index.js:137-168 | `/balance` on an empty registry sends the no-wallets notice and looks nothing up; otherwise it looks up every wallet once, in insertion order, and replies with the lines and the exact sum; if a lookup fails, it stops after that wallet and replies with the generic error |

## Left out

- The Telegram transport (`TelegramApi` polling, `sendMessage`, `setMyCommands`) is left out. Reply texts and the greeting with the user's first name are abstracted to reply tags. `/start` and `/add` send different denial texts; both are the tag `AccessDenied`.
- The HTTP request (`axios`, the URL, the `TRON-PRO-API-KEY` header) and the `dotenv` configuration are left out: they are network and configuration I/O. The service is a parameter: a function from address to `ApiResponse`, treated as deterministic during one `/balance`.
- Floating-point arithmetic is left out. Amounts are `real`, and the rounding done by `toFixed(0)` is not modelled.
- The regular-expression dispatch of `onText` is left out. So are the order in which `onText` and `on('message')` handlers run, and the rule that `.` in `/\/remove (.+)/` stops at a line break. Handlers take events that are already routed, and `/remove` takes the captured argument.
- Messages without text (`msg.text` undefined) and the `console.log` calls are left out.
- Concurrency is left out. Each handler runs to completion as one atomic step, so interleaving across the `await` in the `/balance` loop and races on the shared flag are not modelled.
- `/balance` is not an `Event` of `Bot.Run`, because it never changes the state. Its lines already sent before an abort are not modelled separately. The code sends the whole list in one final message, so none are sent before an abort.
- JSON values of `totalAssetInUsd` other than numbers and `null` are grouped as `JOther`. For a string, `totalBalance += currBalance` would concatenate, but the `toFixed` call right after throws either way.
- Strings are sequences of Unicode scalar values, not UTF-16 code units. The white-space set and `startsWith` do not depend on the difference for the characters involved.
