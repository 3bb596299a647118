# matrix-firefly-bot: the command interpreter, in Dafny

matrix-firefly-bot is a chat bot for a Matrix room. It reads each text message
that starts with `!` as a command:

- `!ping` is answered with `pong`.
- `!help` is answered with the usage text.
- `!categories` is answered with the category names the Firefly III ledger
  lists.
- `!add <Category>: <Amount> [Note] [#Tag...]` records a withdrawal in the
  ledger. The bot then reacts to the message with ✅ when the ledger accepts
  it and with ❌ otherwise.

Everything is in `src/main.rs`. This project models the part of it that
decides things:

- the command grammar: `Cmd::parse` and `AddArgs::parse`;
- the ledger record: `Transaction::withdrawal` and `Transactions::new`;
- the reply to `!categories`;
- the routing of `on_room_message`, together with the success rule of
  `add_expense`.

Modules:

- `Wrappers` (`wrappers.dfy`): `Option` and `Result`.
- `Text` (`text.dfy`): Rust's `trim`, `starts_with`, `find`, `split_once`,
  `split` and `join` on `seq<char>`. Whitespace is Rust's `char::is_whitespace`, the
  Unicode White_Space set.
- `Commands` (`commands.dfy`): the grammar. It also holds a reading of the
  grammar field by field (`CategoryText`, `AmountToken`, `NoteOf`,
  `TagsOf`) and a canonical rendering `RenderAdd` of `!add` arguments that
  the parser reads back.
- `ParseAddCases` (`parse_add_cases.dfy`): the unit tests of
  `AddArgs::parse`, stated as lemmas.
- `Ledger` (`ledger.dfy`): the transaction record.
- `Bot` (`bot.dfy`): the categories reply, `add_expense`, and
  `on_room_message` as a function from the event and the backend's answers to
  one outcome. The outcome is to ignore the message, to abort, to reply with
  a text, or to react with ✅ or ❌.

Values the program gets from outside are parameters:

- `parseAmount` is a partial function from the amount token to an amount of
  an abstract type `A`. It stands for `f64::from_str`.
- The date is a value of an abstract type `D`.
- `listing` is the result of listing the categories.
- `post` is the ledger's HTTP response to a request body.

Two details of the code that the model keeps as written:

- **The order of `$` removal and trimming.** The code (src/main.rs:431-434)
  trims the token, removes one `$`, and does not trim again. So whitespace right after the `$` stays in the token. In
  `"c: $\t5"` the token passed to the amount parser is `"\t5"`
  (`ParseAddCases.DollarBeforeTab`).
- **A remainder without a space is not trimmed before it becomes the
  amount** (src/main.rs:406). It is trimmed later (line 431), so the token
  is the same as if it had been trimmed first (`Commands.AmountAndTail`).

## Model

| member | source | states |
|---|---|---|
| Text.AsciiWhitespace | src/main.rs:393 | `Text.IsWhitespace` is `char::is_whitespace`, the Unicode White_Space set behind every `trim` (also lines 396, 412, 431, 436); the ASCII space, tab, line feed, vertical tab, form feed and carriage return are whitespace; the grammar's `:`, `#` and `$` are not |
| Text.Trim | src/main.rs:436 | the result is the input with a leading and a trailing run of whitespace removed and nothing else; it has no leading or trailing whitespace; it is empty exactly when the input is all whitespace; it keeps only the input's characters; an already trimmed string is unchanged |
| Text.StartsWith | src/main.rs:217 | `str::starts_with(c)`: the string is non-empty and its first character is `c`, followed by the rest (also lines 408, 432) |
| Text.IndexOf | src/main.rs:371 | the index of the first occurrence of the character, or the length when there is none; the character does not occur before it |
| Text.SplitOnce | src/main.rs:391 | `None` exactly when the character is absent; otherwise the input is the part before, the character, and the part after, and the part before does not contain the character |
| Text.Split | src/main.rs:411 | at least one piece; the first piece is the text before the first separator; no piece contains the separator |
| Text.Join | src/main.rs:256 | `[String]::join`: one part is itself, and the result starts with the first part; its full meaning is the round trip with `Split` (`Text.JoinSplit`, `Text.SplitJoin`) and the bullet list of `Bot.JoinBullets` |
| Text.TrimPad | src/main.rs:396 | a trimmed non-empty string with whitespace-only padding on both sides trims back to exactly that string |
| Text.SplitThree | src/main.rs:411 | a string with exactly two separators splits into the three pieces around them |
| Text.JoinSplit | src/main.rs:411 | joining the pieces of a split with the separator gives back the input |
| Text.SplitJoin | src/main.rs:411 | splitting a join of separator-free pieces gives back the pieces |
| Commands.CleanParts | src/main.rs:411-414 | every cleaned part is non-empty and trimmed; there are no more parts than went in |
| Commands.CleanPartsMembers | src/main.rs:411-414 | a string is a cleaned part exactly when it is the non-empty trim of some part (both directions) |
| Commands.CleanPartsAppend | src/main.rs:411-414 | cleaning distributes over concatenation, so the order of the parts is kept |
| Commands.CleanPartsLabels | src/main.rs:411-414 | parts free of `#` clean to labels: non-empty, trimmed, free of `#` |
| Commands.SplitAmount | src/main.rs:392-406 | a tail, when present, is non-empty and trimmed; a blank tail is absent |
| Commands.AmountAndTail | src/main.rs:392-406 | the amount token is the trimmed remainder up to its first space (all of it when there is none), trimmed, with one `$` removed; the tail is the trimmed text after that space, empty when there is none |
| Commands.StripDollar | src/main.rs:431-434 | a leading `$` is removed once; any other string is unchanged |
| Commands.NoteHeadsParts | src/main.rs:408-426 | when the tail does not start with `#`, the cleaned parts are non-empty and begin with the first segment, so `unwrap()` and `[1..]` cannot panic and the note is `parts[0]` |
| Commands.NoteAndTags | src/main.rs:408-429 | the note and tags computed by the source's chain equal `NoteOf` and `TagsOf` of the tail |
| Commands.TailShape | src/main.rs:408-429 | the three tail cases: absent (no note, no tags); starting with `#` (no note; every cleaned segment is a tag); otherwise (the note is the first cleaned part and the tags are the rest) |
| Commands.EmptyTail | src/main.rs:408-429 | an empty tail gives no note and no tags |
| Commands.TailWithoutHash | src/main.rs:408-426 | a tail without `#` is all note, with no tags |
| Commands.TailStartsWithHash | src/main.rs:425-429 | a tail starting with `#` has no note; its tags are all its non-empty trimmed segments |
| Commands.TailLabels | src/main.rs:411-414 | the note, when present, and every tag are non-empty, trimmed and free of `#` |
| Commands.ParseFields | src/main.rs:392-451 | a success carries the trimmed category, and that category is not empty |
| Commands.ParseAdd | src/main.rs:390-455 | no `:` gives the invalid-arguments message; a success carries a non-empty trimmed category |
| Commands.ParseAddOutcome | src/main.rs:390-455 | for every input: no `:`, or an empty category or amount token, gives "Invalid arguments. Usage: !add <Category>: <Amount> [Note] [#Tag...]"; a token the amount parser rejects gives "Invalid amount: <token>"; otherwise the result is Ok with the trimmed category, the parsed amount, `NoteOf(tail)` and `TagsOf(tail)` |
| Commands.ParseAddLabels | src/main.rs:408-436 | every success has a non-empty trimmed category, and a note and tags that are labels |
| Commands.ParseCmd | src/main.rs:370-386 | a non-`Add` success means the verb before the first space is `!help`, `!ping` or `!categories`; an `Add` success means it is `!add` |
| Commands.ParseCmdByVerb | src/main.rs:370-386 | for a verb, a space and any arguments: `!help`, `!ping` and `!categories` ignore the arguments; `!add` gives exactly the result of `AddArgs::parse` on the arguments; any other verb gives "Unknown command: <verb>" |
| Commands.ParseCmdVerbAlone | src/main.rs:370-386 | the same for a verb with nothing after it; `!add` then parses the empty string |
| Commands.AddVerb | src/main.rs:383 | `!add ` followed by arguments yields `AddArgs::parse` of those arguments, wrapped as `Add` or passed through as the error |
| Commands.AddCommandParses | src/main.rs:383 | `!add ` followed by arguments that parse is the `Add` command with those arguments |
| Commands.AddWithoutArguments | src/main.rs:373-374 | a bare `!add` is the invalid-arguments error |
| Commands.TailRoundTrip | src/main.rs:408-429 | a rendered note and tags form a trimmed tail that reads back as exactly that note and those tags |
| Commands.SplitTags | src/main.rs:411-414 | splitting a head followed by ` #tag` renderings on `#` gives the head and then exactly the tags |
| Commands.RenderedParts | src/main.rs:391-436 | in the canonical form, the grammar finds the trimmed category, the amount token, the note and the tags that were rendered |
| Commands.RenderAddParses | src/main.rs:390-455 | round trip: parsing the canonical rendering of a category, an amount token (with or without `$`), a note and tags gives back the trimmed category, the parsed amount, the note and the tags |
| ParseAddCases.CategoryAndAmount | src/main.rs:508 | `"Test: 1.23"` parses to category `Test`, the amount, no note and no tags |
| ParseAddCases.DollarAmount | src/main.rs:509-515 | `"multi word cat: $100"` parses to category `multi word cat` and the amount of `100` |
| ParseAddCases.NoteOnly | src/main.rs:516-522 | `"cat : 0.25 this is a note"` parses to category `cat` and note `this is a note`, with no tags |
| ParseAddCases.TagOnly | src/main.rs:523-529 | `"test: 1.25 #tag"` has no note and the single tag `tag` |
| ParseAddCases.NoteAndTagsCase | src/main.rs:530-536 | `"test: 1 this is a note #one #two #three"` has note `this is a note` and tags `one`, `two`, `three` in order |
| ParseAddCases.IrregularSpacing | src/main.rs:537-545 | `"   weird spacing   :   $1.01    this one has  extra   spacing    #one    #  two  "` parses to category `weird spacing`, the amount of `1.01`, note `this one has  extra   spacing` (inner runs of spaces kept) and tags `one`, `two` |
| ParseAddCases.PaddedFields | src/main.rs:390-406 | blank padding around the category, around the text after `:` and between the amount and the rest is dropped: the grammar finds the category, the amount token without its `$` and the tail exactly |
| ParseAddCases.TwoTagTail | src/main.rs:407-429 | a tail of a note segment and two tag segments, each free of `#`, gives the trimmed note and the two trimmed tags in order |
| ParseAddCases.DollarBeforeTab | src/main.rs:431-434 | in `"c: $\t5"` the token passed to the amount parser is `"\t5"`: the token is trimmed before its `$` is removed, not after |
| Ledger.Withdrawal | src/main.rs:104-126 | type `withdrawal`; description `<category> by <person>`; tags are the input tags followed by the person (also as multisets); every other field is copied unchanged |
| Ledger.SenderAppendedWithoutDeduplication | src/main.rs:112-114 | a person already among the tags appears at least twice: nothing is deduplicated |
| Ledger.NewTransactions | src/main.rs:129-134 | the body holds exactly the given transaction |
| Bot.CategoryNames | src/main.rs:361-365 | the names of the listed categories, one per category, in response order |
| Bot.CategoriesReply | src/main.rs:251-257 | the reply built by `push_str` is `CategoriesText` of the names |
| Bot.JoinBullets | src/main.rs:255-256 | for a non-empty list, one separator followed by the names joined with the separator is the bullet list |
| Bot.CategoriesTextShape | src/main.rs:251-257 | the reply is exactly `Categories:` for no names, and otherwise `Categories:\n - ` followed by the names joined with `\n - `, in order |
| Bot.CategoriesLines | src/main.rs:251-257 | when no name contains a line break, the reply's lines are the header and then one ` - name` line per name, in order |
| Bot.ExpenseBody | src/main.rs:300-309 | exactly one withdrawal: the category, amount and date, `<category> by <sender>`, the configured source account, the destination `General expense`, the note, and the tags followed by the sender |
| Bot.AddExpense | src/main.rs:325-342 | success exactly when the ledger answers 200; any other status is a rejection carrying the status and the body (or "failed to read response body"); a transport error is a request failure |
| Bot.Route | src/main.rs:238-284 | a reaction exactly for `Add`: ✅ when the POST of its record returns 200, ❌ otherwise; `pong` for `Ping`; the usage text for `Help`; for `Categories`, the formatted list or "Failed to list categories" |
| Bot.OnRoomMessage | src/main.rs:203-289 | ignored exactly when the message is not text starting with `!` in the joined room; aborted exactly when such a message has no timestamp; otherwise a parse error is replied verbatim and a parsed command is routed; a reaction is on the message's own event and is ✅ or ❌ |
| Bot.ReactsOnlyToAdd | src/main.rs:210-284 | the handler reacts exactly to addressed, time-stamped messages that parse as `!add` |
| Bot.Dispatches | src/main.rs:227-238 | an addressed, time-stamped message that parses is answered by routing the parsed command |
| Bot.AddReaction | src/main.rs:227-284 | `!add <args>` whose arguments parse gets a reaction on its event: ✅ exactly when the ledger answers the record of the parsed arguments with 200 |
| Bot.AddRecord | src/main.rs:266-309 | the record posted for a parsed `!add` has a non-empty trimmed category, tags that are labels followed by the sender, and the fixed type, source and destination |

## Left out

- The Matrix client setup, login, first sync, event-handler registration and
  sync loop (src/main.rs:161-201): network I/O through an SDK. The model
  starts from one delivered event.
- `send_message` and `send_reaction` (src/main.rs:458-475): the model returns
  the text or reaction to send. A failing send (the `?` after each call) is
  not modelled.
- The HTTP requests and JSON (de)serialisation in `add_expense` and
  `list_categories` (src/main.rs:311-323, 345-359). This includes the URLs
  and the `Authorization` header. The POST's answer is the parameter `post`;
  the listing, or any failure to fetch or decode it, is the parameter
  `listing`.
- `Arc` and async/tokio concurrency (src/main.rs:182-193, 477): the handler
  is modelled as one call on one event.
- Configuration file reading, TOML parsing, the command-line check and
  logging (src/main.rs:478-499). The `debug!`/`info!`/`warn!`/`error!` lines
  in the handler are also left out, as is the text of `add_expense`'s error
  messages, which is only logged. The error value keeps the status and body,
  or the transport message.
- `f64::from_str` and `f64` amounts: floating-point parsing and numbers are
  not modelled. The amount is the abstract type `A`, and parsing is the
  partial function `parseAmount`.
- The conversion of the event timestamp to `SystemTime` and then to
  `DateTime<Local>` (src/main.rs:222-225, 303). These are time-zone and
  library behaviour. The date is an opaque value of type `D`, present or
  absent on the event, and it is copied into the record unchanged.
- The sender's user id: the event carries only the local part that
  `localpart()` returns (src/main.rs:221).
- The unused `Pagination` struct (src/main.rs:78-84).
