# Push-up challenge ledger

A Telegram bot runs a group push-up challenge. It keeps a ledger in which each
participant has a display name, a running `total` of push-ups done and an
outstanding `debt`. The ledger also lists the chat ids that the daily report is
broadcast to.

- `/start` registers the sender.
- `/pushups N` records a completion. The count goes into the total and pays
  off the debt, by at most the debt.
- `/stats` lists every participant. `/me` shows the sender's own record.
  `/resetme` zeroes the sender's counters.
- Twice a day a timer sends the daily report. It computes the challenge day
  number from the start date 2025-05-09 and the day's quota,
  `10 + dayNumber - 1`. It renders one line per participant from the
  current record, then adds the quota to that participant's debt.

The model has three modules:

- `Ledger` (`ledger.dfy`) holds the ledger as a value (`Snapshot`) and every
  operation as a function, with lemmas about them.
- `Bot` (`bot.dfy`) holds the command handlers as functions from a snapshot
  to a reply and the next snapshot. It also defines runs of arbitrary event
  sequences and the invariants they keep.
- `Store` (`store.dfy`) holds the ledger the way the program keeps it: an
  object whose fields every handler updates in place. Each method is proved to
  produce the state and reply that the `Ledger`/`Bot` function describes.

Inputs the program gets from outside are parameters:

- "Now" is an integer number of milliseconds since the epoch. JavaScript
  subtracts two `Date`s to an integer number of milliseconds.
  `new Date("2025-05-09")` is 00:00 UTC, 1746748800000. Dafny's `/` by a
  positive divisor rounds down, as `Math.floor` does.
- The sender's id and first name are parameters.
- The `/pushups` count is a parameter, already parsed.

Behaviour of the code worth knowing:

- A repeated registration does not refresh the display name.
- Nothing clamps a day number below 1.
- Nothing guards against two accruals on the same day.
- `saveChatIdIfMissing` is defined but no handler in `index.js` calls it. The
  model still treats it as one of the ledger's operations (`Bot.SaveChat`).

## Model

| member | source | states |
|---|---|---|
| `Ledger.Empty` | index.js:115-120 | a missing data file loads as a ledger with no users and no chat ids; that ledger satisfies both invariants |
| `Ledger.AddUser` | index.js:126-134 | a new id gets `{name, total: 0, debt: 0}` appended to the visiting order; an existing id leaves the ledger unchanged; no other record changes |
| `Ledger.AddUserIdempotent` | index.js:126-134 | registering the same id twice, with any second name, equals registering it once: no duplicate, no counter reset, no rename |
| `Ledger.AddUserKeepsInvariants` | index.js:126-134 | registration keeps the visiting order duplicate-free and in step with the users, and keeps counters non-negative |
| `Ledger.CompleteUser` | index.js:144-151 | the total grows by the count and the name is kept; a debt `<= 0` is untouched; for debt `>= 0` and count `> 0` the new debt is `max(0, debt - count)`, never negative, never above the old debt |
| `Ledger.CompletePushups` | index.js:136-157 | an unknown id leaves the ledger unchanged; otherwise only that user's record changes, as `CompleteUser` says; keys, order and chat ids stay |
| `Ledger.CompleteKeepsInvariants` | index.js:144-151 | a completion with a positive count keeps both invariants |
| `Ledger.ResetStats` | index.js:159-168 | an unknown id is a no-op; otherwise exactly the target's total and debt become 0 and its name stays; every other user and the chat ids are unchanged |
| `Ledger.ResetKeepsInvariants` | index.js:159-168 | a reset keeps both invariants |
| `Ledger.ResetIdempotent` | index.js:159-168 | resetting twice equals resetting once |
| `Ledger.DayNumber` | index.js:172-174 | the day number is 1 or more exactly when "now" is at or after the start date |
| `Ledger.RequiredPushups` | index.js:175 | the quota on day 1 is the base quota 10, and the quota is non-negative exactly from day -9 on |
| `Ledger.Charged` | index.js:182 | charging a user adds exactly the quota to the debt and keeps name and total |
| `Ledger.DailyAccrual` | index.js:173-183 | after the scheduled report every user's debt has grown by `RequiredPushups(DayNumber(now))`; names, totals, the set of users, the order and the chat ids are kept |
| `Ledger.DayNumberBounds` | index.js:172-174 | day number `n` is the day whose `[n-1, n)` day-long interval since the start contains "now" |
| `Ledger.DayNumberOfDay` | index.js:172-174 | any instant inside day `n` of the challenge (counting the start date as day 1) gets day number `n`, for every integer `n` |
| `Ledger.QuotaOnFirstDay` | index.js:173-175 | on the start date the quota is the base quota, 10 |
| `Ledger.QuotaGrowsDaily` | index.js:173-175 | one day later, the quota is exactly one push-up more |
| `Ledger.QuotaNonNegativeIff` | index.js:173-175 | the quota is non-negative if and only if "now" is no earlier than the start of day -9 |
| `Ledger.Accrue` | index.js:179-183 | accrual adds the quota to every user's debt; no total or name changes; no user is added or removed |
| `Ledger.Lines` | index.js:63-66 | the lines hold one record per visited id, the `i`-th line being the record of the `i`-th id |
| `Ledger.Announcement` | index.js:173-181 | the header carries the day number and the quota `10 + day - 1`; the `i`-th line is the `i`-th user's record before accrual |
| `Ledger.AnnouncementPrecedesAccrual` | index.js:181-182 | each announced debt plus the quota is that user's debt after the report, and the announced total is the unchanged total |
| `Ledger.AccrualKeepsInvariants` | index.js:173-183 | a daily report from day -9 on keeps every debt non-negative and the order in step with the users |
| `Ledger.AccrualTooEarlyGoesNegative` | index.js:172-182 | before day -9 a user with no debt is left with a negative debt: the code has no guard |
| `Ledger.OrderCoversRoster` | index.js:57-66 | the roster is empty exactly when the visiting order is, and a listing over the order has one line per user |
| `Ledger.OrderListsEachUserOnce` | index.js:63-66 | every registered id is visited exactly once |
| `Ledger.AddChatId` | index.js:198-202 | the id is in the result; a known id leaves the list unchanged; otherwise it is appended |
| `Ledger.SaveChatIdIfMissing` | index.js:196-205 | users are untouched; the saved list holds the id, every earlier id and nothing else |
| `Ledger.SaveChatIdIdempotent` | index.js:198-202 | saving the same chat id twice equals saving it once |
| `Ledger.SaveChatIdKeepsDistinct` | index.js:198-202 | a duplicate-free chat id list stays duplicate-free |
| `Bot.OnStart` | index.js:10-27 | the "registered" reply comes exactly for an unknown id, which gets a zeroed record appended to the order, and the result is exactly `Ledger.AddUser`; a known id leaves the ledger unchanged; no other user is added or changed and the chat ids stay |
| `Bot.OnPushups` | index.js:30-50 | the count hint comes exactly for a count `<= 0`, with no state change; otherwise the user exists afterwards, a fresh user ends with `total = count, debt = 0`, a known user's total grows by the count and a non-negative debt becomes `max(0, debt - count)`; no other user is added or changed, the order grows only by a fresh id and the chat ids stay; the result is exactly registration followed by completion |
| `Bot.OnStats` | index.js:53-69 | the fixed empty-state text comes exactly when there are no users; otherwise one line per user, in visiting order |
| `Bot.OnMe` | index.js:72-85 | the not-registered text comes exactly for an unknown id; otherwise the sender's record |
| `Bot.OnResetMe` | index.js:88-100 | an unknown id gets the not-registered text and no change; a known id gets zeroed counters and keeps its name, exactly as `Ledger.ResetStats`; nobody else changes and the set of users, the order and the chat ids stay |
| `Bot.StepKeepsInvariants` | index.js:126-183 | every command and every timely timer tick keeps both invariants |
| `Bot.RunKeepsInvariants` | index.js:126-183 | any sequence of commands and ticks no earlier than day -9 never leaves a negative debt or total |
| `Bot.RunKeepsUsersAndChats` | index.js:126-205 | no sequence of events removes a user, and the chat id list only grows at its end |
| `Bot.RosterShowsEveryone` | index.js:63-66 | every registered user has a line in `/stats` |
| `Bot.TwoDayExample` | index.js:136-183 | register, day-1 report, 4 push-ups, day-2 report, 20 push-ups ends with total 24 and debt 0 |
| `Store.ChallengeLedger.constructor` | index.js:115-120 | a new ledger is empty and valid |
| `Store.ChallengeLedger.AddUser` | index.js:126-134 | the object's new state is `Ledger.AddUser` of the old one |
| `Store.ChallengeLedger.CompletePushups` | index.js:136-157 | the object's new state is `Ledger.CompletePushups` of the old one |
| `Store.ChallengeLedger.ResetStats` | index.js:159-168 | the object's new state is `Ledger.ResetStats` of the old one |
| `Store.ChallengeLedger.SendDailyReport` | index.js:170-185 | the loop over the users returns the announcement rendered from the old state, and the new state is the old one with the day's quota charged to every user |
| `Store.ChallengeLedger.SaveChatIdIfMissing` | index.js:196-205 | the object's new state is `Ledger.SaveChatIdIfMissing` of the old one |
| `Store.ChallengeLedger.OnStart` | index.js:10-27 | reply and new state are those of `Bot.OnStart` |
| `Store.ChallengeLedger.OnPushups` | index.js:30-50 | registering and then completing in place gives the reply and state of `Bot.OnPushups` |
| `Store.ChallengeLedger.OnStats` | index.js:53-69 | the roster built line by line is `Bot.OnStats` of the current state |
| `Store.ChallengeLedger.OnMe` | index.js:72-85 | the reply is `Bot.OnMe` of the current state |
| `Store.ChallengeLedger.OnResetMe` | index.js:88-100 | reply and new state are those of `Bot.OnResetMe` |

## Left out

- Telegram transport is not modelled. That covers creating the bot client,
  wiring the command regexes and sending messages, including the broadcast of
  the daily report to every chat id (index.js:187-193). Replies are values.
- Cron scheduling of the 08:00 and 22:00 triggers is not modelled. A timer
  tick is a `DailyReport(nowMs)` event.
- The data file is not modelled: `loadData`/`saveData`, `JSON` and the unused
  `currentDay` field. Each operation acts on the in-memory ledger, which stands
  for the file's contents.
- The `!data.users` guards are not modelled, because `users` is always present
  in the file this program writes.
- Configuration from `.env` and the bot token are not modelled.
- `console.log` output is not modelled.
- Regex matching and `parseInt` are not modelled. The `/pushups` count comes in
  already parsed. Any integer is accepted, so the `count <= 0` branch is
  modelled even though `\d+` never yields a negative number.
- Message texts other than the empty-roster and not-registered texts are not
  modelled. A reply is a variant that carries its data.
- Races are not modelled. Overlapping handlers and timer ticks each load and
  save the whole file, so their read-modify-write cycles can race. This is
  concurrency; the model handles events one at a time.
- Iteration order is not exact for every roster. JavaScript's `for…in` first
  visits the keys that are array indices (canonical integers below 2^32 - 1)
  in ascending numeric order, then all other keys in creation order, and
  `JSON.parse`/`JSON.stringify` keep that order across saves. The model keeps
  an explicit visiting order, `order`, which grows in registration order. It
  is exact when no registered id is below 2^32 - 1; ids below that bound are
  listed by the program in ascending numeric order ahead of the others, which
  `order` does not capture. Every statement about reports holds for the order
  as kept.
- Numbers are unbounded integers. JavaScript numbers lose integer precision
  above 2^53, which the model does not capture. Nor does it capture overflow.
  A count of more than about 308 digits parses to `Infinity`, and the total
  then becomes `Infinity`. `JSON.stringify` saves that as `null`, so `/me`
  shows `null`. The next `/pushups` then starts the total again from its
  count, because `null + count` is `count`.
- Ids are strings. In the program they are the decimal strings of Telegram's
  numeric user ids. The model accepts any string as an id. A JavaScript plain
  object treats some keys differently, such as `constructor` or `__proto__`,
  which are inherited from its prototype; the model's map does not.
- Local-time effects are not modelled. "Now" is an absolute instant in
  milliseconds and the start is 00:00 UTC, exactly as the `Date` subtraction
  computes it.
