# Giveaway bot: a Dafny model of its entry and winner logic

The repository holds two variants of a Discord giveaway bot, both in Python
with discord.py (the first is kept in a file named `index.js`). This project
models the logic of each that can be stated exactly:

- **index.js.** The `/giveaway` command checks its inputs in a fixed order.
  First the caller must be the server owner. Then the channel id must parse
  and the channel must be reachable. Then the duration is parsed: an
  integer followed by `s`, `m`, `h` or `d`, giving seconds. The end time must
  also fit in Python's `datetime` range. Last, the claim time must be an
  integer followed by `m` or `h`. A created giveaway keeps a set of entrants.
  Its Enter button refuses a repeat entry. Its Exit button refuses a
  non-member. Its Participants button lists the entrants as numbered lines.
  At the end the bot announces the winner the host named when creating the
  giveaway, whoever entered (module `IndexBot`).
- **main.py.** Each giveaway is stored in the `giveaways` dict under the id
  of its message, and nothing is ever removed from that dict. The Enter
  button adds the user to the set (entering twice is harmless). The Exit
  button discards the user. After either, the Enter button's label shows
  the new count. The Participants button lists `<@id>` mentions joined by
  `", "`. At the deadline, either nobody entered, or the winners are
  `list(entries)[:winners]` (module `MainBot`).

Shared pieces: decimal numerals and Python's `int()` on them, mentions and
joined lists with their inverses (module `Text`); the entry set, Python's
unspecified set iteration order, and how presses of the buttons combine
(module `Ledger`).

Python iterates a set in an order the language does not specify. The model
treats that order as any duplicate-free sequence holding exactly the set's
elements (`Ledger.IsEnumeration`). `Ledger.ListOf` chooses one such order
without fixing which. Each button callback is a method of the object whose
state it changes. In index.js that is the giveaway. In main.py it is the
view, whose first child is the Enter button.

The code has no weighting of entries, no lifecycle states and no locking,
so the model has none either.

## Model

| member | source | states |
|---|---|---|
| Text.NatToString | index.js:112 | the decimal rendering of n is a non-empty string of digits whose value is n |
| Text.ParseInt | index.js:138 | `int()` accepts only strings that end in a digit, so the empty string is refused |
| Text.ParseIntToString | index.js:138 | `int()` reads every integer's decimal rendering back to that integer, sign included |
| Text.Join | main.py:119 | `sep.join(xs)` starts with the first element and holds no character that is in neither the separator nor an element |
| Text.MentionList | main.py:59-60 | the `", "`-joined mentions form one line, are empty exactly when there are no ids, and start with the first id's mention |
| Text.SplitOnJoin | index.js:111-114 | splitting a `"\n"`-joined list of newline-free lines on newlines gives back those lines |
| Text.ReadMentionListOf | main.py:59-60 | a non-empty `", "`-joined list of `<@id>` mentions reads back to exactly its ids, in order |
| Ledger.ListOf | main.py:118 | `list(entries)`: the result lists every element of the set exactly once |
| Ledger.EnumerationSize | main.py:118 | any such listing of a set has exactly as many elements as the set |
| Ledger.Added | index.js:87 | `entries.add(u)` contains u and the old entries; it equals the old set exactly when u was already there; the count grows by one exactly when u is new |
| Ledger.Removed | main.py:72 | `discard(u)` or `remove(u)` leaves u out; it is unchanged exactly when u was absent; the count drops by one exactly when u was present |
| Ledger.ReplayMembership | main.py:49 | after any sequence of enter and exit presses, a user is entered exactly when that user's last press was enter, or, with no press, when the user was entered at the start |
| Ledger.StepIdempotent | main.py:49 | entering twice gives the same set as entering once, and the same holds for exiting |
| IndexBot.UnitSeconds | index.js:136-140 | the multiplier table has exactly the keys s, m, h and d, each worth between 1 and 86400 seconds; any other unit is a missing key |
| IndexBot.DurationSeconds | index.js:136-140 | strings of length at most 1 are refused; an accepted duration ends in one of the four units |
| IndexBot.DurationOfNumeral | index.js:136-140 | an integer N followed by s, m, h or d gives N times 1, 60, 3600 or 86400 seconds; the sign is kept |
| IndexBot.DurationNeedsUnit | index.js:139-144 | a duration whose last character is not s, m, h or d is refused |
| IndexBot.DurationNeedsNumber | index.js:138-144 | a duration whose part before the last character is not an integer is refused |
| IndexBot.ParsesTen | index.js:119 | the documented example "10s" is 10 seconds |
| IndexBot.ClaimTimeValid | index.js:146-150 | an accepted claim time has at least two characters and ends in m or h |
| IndexBot.ClaimTimeOfNumeral | index.js:146-153 | an integer followed by a unit is a valid claim time exactly when the unit is m or h |
| IndexBot.ParsesThirtyMinutes | index.js:123 | the documented example "30m" is a valid claim time |
| IndexBot.ClaimTimeIsDuration | index.js:146-153 | every valid claim time is also a valid duration; strings of length at most 1 are refused |
| IndexBot.EndMicros | index.js:141 | an accepted end time lies within datetime's range and is exactly the duration after now |
| IndexBot.ReplyText | index.js:126-156 | "Giveaway created!" is sent exactly on creation, and nothing is sent exactly on the TypeError |
| IndexBot.ReplyTextDistinct | index.js:127-152 | the error replies and the TypeError are told apart by their text alone |
| IndexBot.HandleGiveaway | index.js:125-156 | the handler with the intended initializer never ends in the constructor's TypeError |
| IndexBot.OwnerCheckedFirst | index.js:126-128 | a non-owner is refused whatever the channel, duration, claim time, reachable channels and clock are |
| IndexBot.ChannelCheckedBeforeDuration | index.js:130-136 | the owner with a channel id that does not parse or names no reachable channel gets the channel error whatever the duration and claim time are |
| IndexBot.DurationCheckedBeforeClaimTime | index.js:136-153 | the owner with a reachable channel gets the duration error whatever the claim time is, both when the duration does not parse and when its end time leaves datetime's range |
| IndexBot.CreatedExactlyWhenValid | index.js:125-156 | a giveaway is created exactly when all checks pass; it then carries the channel, the parsed seconds, an end time that many seconds after now, and the prize, winner, host and claim time given |
| IndexBot.HandleGiveawayAsWritten | index.js:155 | as written, no command ever creates a giveaway or gets the reply "Giveaway created!" |
| IndexBot.AsWrittenCrashesOnValidCommand | index.js:155 | the owner's command with "10s", "30m" and a reachable channel passes every check, yet as written it ends in the TypeError |
| IndexBot.ListingLine | index.js:112 | each listing line is a single line; it starts with "- ", the number read after that is i + 1, and it ends with the entrant's mention |
| IndexBot.ListingReply | index.js:108-114 | the reply is the fixed "No participants yet." exactly when nobody entered |
| IndexBot.ListingShape | index.js:107-114 | the reply is "No participants yet." exactly when nobody entered; otherwise it is a header line and one line per entrant, line i numbered i + 1 and naming the i-th entrant of the order |
| IndexBot.WinnerAnnouncement | index.js:63-68 | when neither the prize nor the claim time holds a newline, the end reply splits into exactly its three lines: the prize line, the winner line and the claim line |
| IndexBot.AnnouncementNamesWinner | index.js:63-68 | the end announcement has three lines and the second names the host-chosen winner; the entries play no part |
| IndexBot.Giveaway.constructor | index.js:17-26 | the intended initializer stores the configuration and starts with no entries |
| IndexBot.Giveaway.Join | index.js:83-88 | a member is told they already entered and the set is unchanged; anyone else is added and told they entered |
| IndexBot.Giveaway.Exit | index.js:95-100 | a member is removed and told so; a non-member is told they are not participating and the set is unchanged |
| IndexBot.Giveaway.Participants | index.js:107-114 | the reply is the numbered listing of the entrants in some iteration order |
| IndexBot.Giveaway.EndAnnouncement | index.js:63-68 | the end reply is built from prize, winner and claim time only |
| MainBot.CountLabel | main.py:45-50 | the label (also set at line 73) is the emoji, a space, and a decimal numeral whose value is the count |
| MainBot.CountLabelDeterminesCount | main.py:45-50 | two counts give the same label only when they are equal, so the label shows the count |
| MainBot.EntriesText | main.py:59-60 | the entries text is one line; it is "No participants yet." exactly when nobody entered, and otherwise reads back to the iteration order |
| MainBot.ParticipantsReply | main.py:58-64 | the reply splits on newlines into exactly two lines: the header and the entries text |
| MainBot.ParticipantsShape | main.py:58-64 | the listing is "No participants yet." exactly when nobody entered; otherwise it reads back to the full iteration order, one mention per entrant |
| MainBot.PrefixSlice | main.py:118 | `xs[:k]` is a prefix of xs of length min(k, len) for k >= 0, and of length max(0, len + k) for k < 0 |
| MainBot.SelectedWinners | main.py:118 | winners are distinct entrants; there are min(winners, entrants) of them when winners >= 0; when winners < 0 the last abs(winners) entrants are dropped, and none remain once abs(winners) reaches the entrant count |
| MainBot.EndOf | main.py:114-118 | the outcome is NoParticipants exactly when nobody entered; otherwise the winners are a prefix of the iteration order |
| MainBot.EndedContent | main.py:114-128 | the message is edited to the "GIVEAWAY ENDED" banner in both outcomes, which is followed by a second line, "No participants.", exactly when nobody entered |
| MainBot.Congratulation | main.py:119-129 | the message starts with "Congratulations " and ends with "! You won **" + prize + "**!"; between them is the winners' mention list, which reads back to exactly the winners, in order |
| MainBot.EndingShape | main.py:114-119 | the giveaway ends with "No participants." exactly when nobody entered; otherwise the winners are the slice and their mention string reads back to exactly them, in order |
| MainBot.EmptyDrawWithEntrants | main.py:114-119 | with entrants, the winner list is empty exactly when winners is 0 or at most minus the entrant count; the congratulation then names nobody |
| MainBot.InsertAll | main.py:108 | storing giveaways never removes a key, and a key no start names keeps its giveaway |
| MainBot.StoredIsLastStart | main.py:108 | a start whose message id no later start reuses is the giveaway stored under that id |
| MainBot.RegistryOnlyGrows | main.py:108 | after any sequence of starts, the registry's keys are the old keys plus the started message ids, and each id maps to the last giveaway started under it |
| MainBot.Giveaway.constructor | main.py:22-29 | a new giveaway stores its arguments and has no entries |
| MainBot.Giveaway.End | main.py:112-119 | at the deadline, the outcome is the ending for some iteration order of the entries; it is "no participants" exactly when the set is empty |
| MainBot.GiveawayView.constructor | main.py:32-45 | the new view's enter label shows the current count |
| MainBot.GiveawayView.Enter | main.py:48-51 | the set becomes entries with the user added, and the label shows the new count |
| MainBot.GiveawayView.Exit | main.py:71-74 | the set becomes entries without the user (unchanged if absent), and the label shows the new count |
| MainBot.GiveawayView.Participants | main.py:58-64 | the reply is the mention listing of the entrants in some iteration order |
| MainBot.Registry.constructor | main.py:19 | the registry starts empty |
| MainBot.Registry.Start | main.py:103-108 | a new giveaway with no entries is stored under its message id; the keys grow by exactly that id and nothing else changes |

## Findings

| source | as written | input that shows it | evidently intended | confidence | as-written member | corrected member |
|---|---|---|---|---|---|---|
| index.js:17 | The class defines `_init_`, not `__init__`. Python therefore uses object's initializer, which takes no arguments. So `Giveaway(channel, prize, ...)` at line 155 raises TypeError after every check has passed. The same misspelling at lines 71, 79, 91 and 103 would also break the view and button constructors. | the owner runs `/giveaway` with duration "10s", claim time "30m" and reachable channel "7" | the fields are initialised, "Giveaway created!" is sent and the giveaway starts | high; not executed | IndexBot.AsWrittenCrashesOnValidCommand | IndexBot.HandleGiveaway |

`IndexBot.HandleGiveawayAsWritten` is the handler as written, and
`IndexBot.AsWrittenCrashesOnValidCommand` shows that it crashes on an input
the intended handler accepts. The rest of the model uses
`IndexBot.HandleGiveaway` and the intended `IndexBot.Giveaway` constructor.
`IndexBot.CreatedExactlyWhenValid` proves the intended behaviour.

## Left out

- Discord I/O is not modelled. This covers the client, intents, `bot.run`,
  `tree.sync`, and sending, editing and replying to messages. It also covers
  the views and buttons as UI objects and the embeds (titles, colours,
  `format_dt`, the `set_field_at` edit, the Participants and Winners
  fields).
- `fetch_channel` becomes the parameter `reachable`: the set of channel ids
  it succeeds on.
- Timing is not modelled: `asyncio.sleep`, the 5-second `update_loop` in
  index.js (lines 52-55) and its cancellation. The deadline is the moment
  `MainBot.Giveaway.End` or `IndexBot.Giveaway.EndAnnouncement` is called.
- `datetime.utcnow()` becomes the parameter `nowMicros` in index.js. In
  main.py the end and claim times become the parameters `endMicros` and
  `claimMicros`.
- MainBot.Registry.Start: does not model the OverflowError that main.py
  lines 90-91 raise when `duration_minutes` or `claim_time_minutes` pushes
  the time past datetime's range. That depends on the clock, which is
  outside the model.
- Async callbacks run here one at a time. Their interleaving is not
  modelled.
- Text.ParseInt: differs from Python's `int()` in both directions. It
  accepts less, because it takes only an optional sign and ASCII digits: no
  surrounding whitespace, no underscores, no non-ASCII digits. So "10 s" is
  refused here but accepted by the program. It also accepts more, because it
  has no length limit. CPython 3.11 and later (and the 3.10.7, 3.9.14 and
  3.8.14 security releases) raise ValueError on a decimal string of more than
  4300 digits. So a claim time of 4301 digits followed by `m` gets "Invalid
  claim_time format." from the program, but `IndexBot.ClaimTimeValid`
  accepts it and `IndexBot.HandleGiveaway` creates the giveaway. The limit
  counts every digit, leading zeros included. So a zero-padded duration such
  as 4300 zeros followed by "5s" gets "Invalid duration format." from the
  program, while `IndexBot.DurationSeconds` reads it as 5 seconds and the
  giveaway is created. An over-long duration without leading zeros is
  refused either way, because its end time leaves datetime's range. The
  limit depends on the Python version and can be changed at run time (`sys.set_int_max_str_digits`,
  `PYTHONINTMAXSTRDIGITS`), so the model leaves it out. A sign is accepted,
  so "-5m" is -300 seconds.
- Ledger.ListOf: CPython's actual iteration order, which follows the hash
  table layout, is not modelled. Any order is allowed.
- The index.js giveaway's `message` field and `start()` are not modelled.
  They only send and edit messages.
- The token at index.js line 165 and the environment reads at main.py
  lines 16-17 are not modelled.
