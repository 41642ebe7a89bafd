# Egg-timer bot, modelled in Dafny

`bot.js` is a Twitch chat bot that keeps named countdown timers ("egg timers") for a channel.
When a moderator or the broadcaster writes a command, the bot acts on it:

- `!eggtimer start <name> 1h 1m 1s` starts a timer;
- `!eggtimer stop <name>` cancels it;
- `!eggtimer time <name>` asks how long is left.

When a timer runs out, the bot says `Timer <name> rings` and then `!redeem ping`.

This project models the bot's core, file by file:

- `wrappers.dfy` (`Wrappers`): the `Option` type.
- `js_text.dfy` (`JsText`): the parts of JavaScript's built-ins the bot relies on.
  - `String.prototype.trim` with JavaScript's white-space set.
  - Decimal digits, and the text of an integer, which is what `'00' + n` produces.
- `duration.dfy` (`Duration`): `convertToSeconds`.
  - The duration pattern is hand-coded as a leftmost, non-overlapping scan, `ScanFrom`. The unit letter is a lookahead.
  - The method `ConvertToSeconds` keeps the source's `for … of` accumulator loop and is proved equal to `TotalSeconds`.
- `clock.dfy` (`Clock`): `sanitizeTime`, its inner `pad`, and `getTimeLeft`.
  - JavaScript's truncating `%` is written out as `JsRem`.
- `commands.dfy` (`Commands`): `isValidCommand`, and the three unanchored command patterns used through their first match.
  - The name class `[a-zA-z0-9]` is given its real extent: `A-z` also takes in `[`, `\`, `]`, `^`, `_` and the backquote.
- `engine.dfy` (`Engine`): the shared `timers` dictionary and the handlers.
  - Pure specification functions describe each handler: `StartStep`, `StopStep`, `TimeStep`, `FireStep`, `Obey` and `Dispatch`.
  - The class `Bot` holds the dictionary as a `map` field. Its methods update it in place, and each method is proved against its function.
- `scenarios.dfy` (`Scenarios`): concrete conversations, each message by message.

A dictionary entry is one of:

- `Live(startDate, durationMs, pending)`: a clockmaker timer; `pending` is false once it has been cancelled.
- `Fired`: the `null` that the expiry callback writes.

A name that was never started is not in the map at all, which stands for `undefined`.

The clock reading `Date.now()` becomes a `now` parameter. The expiry of a clockmaker timer becomes an explicit event, `Bot.Fire`, which is allowed only while the timer is still armed. Numbers are exact integers.

### Where the code and a plain reading of the bot differ

The model follows the code in each of these cases:

- Expiry writes `null` rather than deleting the entry (bot.js:91). The start check is `=== undefined` (bot.js:53), so the name can never be used again (`FiredNameStaysTaken`).
- Hours of 100 or more show only their last two digits (`HundredHoursExample`).
- Too-large counts are not rejected, because the duration pattern has no left anchor: `25h` counts as 5 hours and `60m` as nothing (`OutOfRangeExamples`).
- The three patterns are tried independently, so one message can hold a start, a stop and a time query, and each branch sees the dictionary the previous one left (`Obey`).

### The stop as written, and the stop as intended

As bot.js:109 is written, stopping a stored timer throws: it says nothing, the timer stays armed, and the rest of the handler is abandoned. If the uncaught exception does not end the process (not modelled), the timer therefore still rings (`StopAsWritten`, `ObeyAsWritten`, `StoppedTimerStillRings`, `StartAndStopAsWritten`; see "## Findings"). Everything else in the model, the class `Bot` included, uses the intended stop, `StopStep`. The following hold of the intended stop only (see "## Left out"):

- Stopping a timer cancels it without removing it from the dictionary (bot.js:108-112). The name stays taken, so a later start with that name is refused.
- Stopping a timer a second time answers "has been stopped." again (`StopIdempotent`).
- A time query on a stopped timer still reports what is left, taking the stored duration as what clockmaker's `_idleTimeout` holds after `stop()` (clockmaker is not part of this model). This is a modelling choice: Node's `clearTimeout` sets `_idleTimeout` to -1, so the running bot would most likely not show the time left of a stopped timer. After the end it shows a negative, garbled clock such as `00:00:-5` (`OverdueExample`).
- One message can start and stop the same timer: it is stored cancelled and both replies are said (`StartAndStopInOneMessage`).

## Model

| member | source | states |
|---|---|---|
| JsText.TrimStart | bot.js:38 | the result is a suffix of the input; everything removed is white space; the result does not start with white space |
| JsText.TrimEnd | bot.js:38 | the result is a prefix of the input; everything removed is white space; the result does not end with white space |
| JsText.Trim | bot.js:38 | `msg.trim()` is a slice of the message with only white space removed on either side, and neither starts nor ends with white space |
| JsText.TrimUnpadded | bot.js:38 | a command with no surrounding white space is left unchanged by `trim` |
| JsText.NatToString | bot.js:156 | the decimal text of a number consists of digits, and its last one or two characters are the last one or two decimal digits of the number |
| JsText.DecimalRoundTrip | bot.js:156 | reading the decimal text of a number gives the number back |
| JsText.IntToStringValue | bot.js:156 | the text `'00' + n` appends is the digits of `n`, after a minus sign when `n` is negative, and reads back as `n` |
| Duration.MatchAt | bot.js:176 | a match at a position is one or two digits, directly followed by the unit letter, whose decimal value lies between 1 and the unit's cap (24 hours, 59 minutes or seconds); it never starts with `0`; a non-zero digit directly followed by `h`, `m` or `s` always makes a match, and a two-digit count within the cap followed by its unit letter is matched whole, with its two-digit value |
| Duration.ScanPositiveIffMatch | bot.js:177-193 | the scan resumed at a position is worth something exactly when the pattern matches at some position from there on |
| Duration.PositiveIffMatch | bot.js:177-193 | `convertToSeconds` returns a positive total exactly when the pattern matches somewhere in the text; otherwise it returns 0 |
| Duration.ConvertToSeconds | bot.js:174-194 | the accumulator loop over the matches returns the total of the scan, each match weighted by 3600, 60 or 1 |
| Duration.NoUnitMeansZero | bot.js:176-193 | a text in which no digit directly precedes a unit letter is worth 0 seconds |
| Duration.NonzeroDigitBeforeUnitIsPositive | bot.js:176-193 | a non-zero digit directly before a unit letter, anywhere in the text, makes the duration positive |
| Duration.SeparatedPartsAdd | bot.js:177-191 | parts joined by a character that is neither a digit nor a unit letter add up, so repeated units accumulate |
| Duration.UsageExample | bot.js:57 | the advertised format `1h 1m 1s` is 3661 seconds |
| Duration.RepeatedUnitExample | bot.js:179-191 | `1m 1m` is 120 seconds |
| Duration.TwoDigitExamples | bot.js:176 | in-range two-digit counts are taken whole: `30m` is 1800 seconds, `12h` is 43200 and `45s` is 45 |
| Duration.OutOfRangeExamples | bot.js:176 | `60m` and `90m` are worth nothing; `25h` counts 5 hours and `75m` counts 5 minutes, because only the last digit matches |
| Clock.JsRem | bot.js:159-163 | the JavaScript remainder is smaller than the divisor in size, has the sign of the dividend, and differs from the dividend by a multiple of the divisor |
| Clock.Pad | bot.js:154-157 | `pad` always yields exactly two characters |
| Clock.PadNat | bot.js:154-157 | a non-negative number pads to its last two decimal digits |
| Clock.SplitRecombines | bot.js:159-164 | the truncating steps lose only the milliseconds: hours, minutes and seconds weighted by 3600, 60 and 1, times 1000, plus the dropped remainder, give the input back; minutes and seconds are below 60 in size and every field has the sign of the input |
| Clock.SplitNat | bot.js:159-164 | on a non-negative input, the truncating steps give whole hours, minutes below 60 and seconds below 60, with the milliseconds dropped |
| Clock.SanitizeTime | bot.js:152-167 | the display always has 8 characters, with `:` at positions 2 and 5 |
| Clock.SanitizeNat | bot.js:152-167 | on a non-negative input, each field of the display is the last two decimal digits of the hours, minutes or seconds |
| Clock.GetTimeLeft | bot.js:139-145 | the answer always has 8 characters with two colons; until the end it is a well-formed clock of the whole seconds left, hours modulo 100 |
| Clock.ReadDisplay | bot.js:166 | a display of minutes and seconds below 60 is a well-formed clock and reads back as the seconds it shows, hours taken modulo 100 |
| Clock.ClockReadBack | bot.js:152-167 | the display of a non-negative time is a well-formed clock, with minutes and seconds below 60, and it reads back as the whole seconds modulo 100 hours |
| Clock.ClockExactBelowHundredHours | bot.js:159-166 | below 100 hours the display reads back exactly as the whole seconds |
| Clock.CountdownNonIncreasing | bot.js:139-145 | before the end, and while less than 100 hours remain, a later query of one timer never shows more time left than an earlier one |
| Clock.HourMinuteSecondExample | bot.js:159-166 | 3661000 ms shows as `01:01:01` |
| Clock.SubSecondDroppedExample | bot.js:159-160 | 3661999 ms also shows as `01:01:01`: the sub-second part is dropped, not rounded |
| Clock.ZeroExample | bot.js:166 | 0 ms shows as `00:00:00` |
| Clock.OverdueExample | bot.js:159-166 | 5 s past the end shows as `00:00:-5` |
| Clock.HundredHoursExample | bot.js:154-157 | 123 hours show as `23:00:00` |
| Commands.GateReadsOnlyPrefix | bot.js:205-211 | the gate reads only the first nine characters of the command: two commands that agree there are obeyed or refused alike, for every sender |
| Commands.GateExamples | bot.js:205-211 | only the prefix is checked and case matters: `!eggtimerx` passes for the broadcaster, `!EggTimer start` fails even for a moderator |
| Commands.NameEnd | bot.js:41-43 | the name group is the maximal run of characters of the class `[a-zA-z0-9]` |
| Commands.LineEnd | bot.js:41 | the `.*` of the duration group runs exactly up to the first line terminator |
| Commands.StartMatchIsRegexMatch | bot.js:41 | the start pattern matches at a position exactly when the regular expression does there: the literal part, a non-empty name of any length, a space and a digit; the greedy name needs no backtracking |
| Commands.FirstMatch | bot.js:45-47 | the first element of `matchAll` is the leftmost position where the pattern matches; no earlier position matches, and there is none when no position matches |
| Commands.NameAt | bot.js:50 | the captured name is the text right after the command's literal part, non-empty, made of name characters, and maximal: it ends at the end of the text or before a character outside the class |
| Commands.DurationAt | bot.js:41-51 | the captured duration text is the rest of the line after the space that ends the name: it starts there, with a digit, holds no line terminator, and runs up to the first line terminator or the end of the text |
| Commands.CaptureName | bot.js:46-47 | the stop or time name is captured exactly when the pattern matches somewhere; it is the name of the leftmost match, and well-formed |
| Commands.CaptureStart | bot.js:45-51 | the start name and duration are captured exactly when the start pattern matches somewhere; they are the captures of the leftmost match, and both are well-formed |
| Commands.RecognizeMatches | bot.js:41-47 | each of the three `matchAll(...)[0]` lookups finds something exactly when its pattern matches somewhere in the command, and every captured name is well-formed |
| Commands.KeywordMismatch | bot.js:41-43 | a position where the text differs from the command's literal part is not a match |
| Commands.StartExample | bot.js:41-51 | `!eggtimer start boil 1m` is read as a start of `boil` for `1m`, and as no stop and no time query |
| Commands.StartWithoutDurationExample | bot.js:41 | a start without any duration matches nothing |
| Commands.StartWithWordDurationExample | bot.js:41 | a start whose duration does not begin with a digit matches nothing |
| Commands.NameClassExample | bot.js:42 | the name class takes in `_` and `[`, and the name ends at the first space |
| Commands.TimeExample | bot.js:43-47 | `!eggtimer time boil` is read as a time query about `boil` and nothing else |
| Engine.EvolvesTransitive | bot.js:49-72 | the ways the dictionary may change compose across the three branches of the handler |
| Engine.StartStep | bot.js:49-61 | a start never removes a name, leaves every other entry as it was, adds at most the started name, and says exactly one thing: a name already stored, even as `null`, changes nothing and gets `Timer with name <name> already exists.`; a new name with a zero duration changes nothing and gets the start usage |
| Engine.StopStep | bot.js:106-116 | the intended stop keeps every name and leaves every other entry as it was; when the name holds a timer (stored and not `null`) it says `Timer <name> has been stopped.` and leaves that timer cancelled; otherwise it changes nothing and gives the stop usage |
| Engine.TimeStep | bot.js:123-131 | a time query never changes the dictionary; when the name holds a timer (stored and not `null`) it says `Timer <name> has <time left> left.` with `getTimeLeft` of that timer's start and duration, otherwise it gives the time usage |
| Engine.FireStep | bot.js:88-92 | expiry leaves `null` under the name, changes no other entry, and says `Timer <name> rings` and then `!redeem ping` |
| Engine.StartBranch | bot.js:49-62 | the start branch changes the dictionary only as allowed and says at most one thing |
| Engine.StopBranch | bot.js:64-67 | the stop branch changes the dictionary only as allowed and says at most one thing |
| Engine.TimeBranch | bot.js:69-72 | the time branch leaves the dictionary unchanged and says at most one thing |
| Engine.Obey | bot.js:49-72 | an obeyed command never removes a name, never revives a `null`, only cancels timers or adds ones started now, keeps every duration a positive whole number of seconds, and says at most three things |
| Engine.Dispatch | bot.js:36-74 | the bot's own messages, and messages not starting with `!eggtimer` or from someone who is neither moderator (by flag or user type) nor broadcaster, change nothing and get no reply; every message keeps the dictionary's invariants |
| Engine.NameTakenOnceStarted | bot.js:53-61 | the first start of a name with a positive duration stores it and says `Timer <name> started`; a second start is refused; a time query shows what is left |
| Engine.StartWithoutUnitsRejected | bot.js:54-57 | a new name with a duration text lacking any digit-and-unit pair gets only the usage message |
| Engine.StopIdempotent | bot.js:106-116 | with the intended stop, a second stop changes nothing and says the same; a stopped timer stays stored but can no longer expire |
| Engine.FiredNameStaysTaken | bot.js:53-60 | after expiry, stop and time queries answer with their usage, and a new start with the same name is refused |
| Engine.StartRacingExpiry | bot.js:53-60 | a start of a running name is refused whether the timer expired first or not |
| Engine.StartedShowsWholeDuration | bot.js:54-55 | every stored timer runs a whole number of seconds, at least one, so a query at its start shows a well-formed clock of its full duration (below 100 hours) |
| Engine.TimeLeftShowsRemaining | bot.js:123-145 | before the end, and with less than 100 hours to go, a time query shows a well-formed clock of exactly the whole seconds left |
| Engine.StartAndStopInOneMessage | bot.js:49-67 | with the intended stop, a message that both starts and stops a new name stores it cancelled and says `started` and then `has been stopped.` |
| Engine.StopAsWritten | bot.js:106-116 | as written, the stop throws exactly when the name holds a timer; otherwise it answers with the usage and changes nothing |
| Engine.ObeyAsWritten | bot.js:49-72 | with the stop as written, the handler keeps the dictionary's invariants, and it is `Obey` whenever there is no stop |
| Engine.StoppedTimerStillRings | bot.js:106-112 | as written, a stop of a running timer says nothing and leaves it armed, so its expiry event still rings it; the intended stop cancels it and says `has been stopped.` |
| Engine.StartAndStopAsWritten | bot.js:49-67 | as written, a message that starts and stops a new name says only `started` and leaves the timer armed |
| Engine.Bot.constructor | bot.js:4 | the bot starts with an empty dictionary |
| Engine.Bot.SetTimer | bot.js:80-99 | the timer is stored under its name, started now and armed for the given milliseconds, and `Timer <name> started` is said; a whole, positive number of seconds keeps the invariant |
| Engine.Bot.Fire | bot.js:88-92 | the expiry callback updates the dictionary and speaks as `FireStep` says, and keeps the invariant |
| Engine.Bot.StopTimer | bot.js:106-116 | the intended `stopTimer` updates the dictionary and speaks as `StopStep` says, keeping the invariant |
| Engine.Bot.TimerLeft | bot.js:123-131 | `timerLeft` speaks as `TimeStep` says |
| Engine.Bot.StartCommandBranch | bot.js:49-62 | the start branch, with its `convertToSeconds` loop, updates and speaks as `StartStep` says on the text's total seconds, keeping the invariant |
| Engine.Bot.ObeyIntents | bot.js:49-72 | the three branches run in place, one after the other, update and speak exactly as `Obey` says, keeping the invariant |
| Engine.Bot.HandleMessage | bot.js:36-74 | `onMessageHandler` updates the dictionary in place and speaks exactly as `Dispatch` says, keeping the invariant |
| Scenarios.OneMinuteIsSixtySeconds | bot.js:174-194 | `1m` is 60 seconds |
| Scenarios.StartBoil | bot.js:36-98 | a moderator's `!eggtimer start boil 1m` stores a one-minute timer and says `Timer boil started` |
| Scenarios.ViewerIgnored | bot.js:203-215 | the same message from a subscriber is ignored |
| Scenarios.QueryBoil | bot.js:123-167 | five seconds in, the broadcaster's `!eggtimer time boil` is answered `Timer boil has 00:00:55 left.` |
| Scenarios.QueryAfterRing | bot.js:88-131 | once the timer has rung, the same query gets only the usage |

## Left out

- The tmi.js client and its wiring are left out as I/O and configuration: `connect`, the event handlers' registration, `dotenv` and `process.env`, and `onConnectedHandler`'s log line (bot.js:1-27, 222-224). The channel `target` is dropped; what the bot says is modelled as the ordered list of replies.
- The clockmaker library is not part of this model. The expiry of a timer is the event `Bot.Fire`, allowed while the timer is stored and armed. `timer._fnThis.startDate` and `timer._timerHandle._idleTimeout` (bot.js:126, 141) are the start and the duration stored in the entry. `timer.stop()` is the flag `pending := false`.
- `Date.now()` (bot.js:86, 140) is the parameter `now`. There is no real time and no concurrency. One message is handled at a single `now`: a start followed by a time query in the same message always shows the full duration, e.g. `00:01:00`, where the real bot reads the clock twice and can show `00:00:59` if a millisecond passes in between.
- The stored duration of a stopped timer is the one it was started with; Node's `clearTimeout` sets `_idleTimeout` to -1, which the model does not follow.
- Numbers are exact integers. JavaScript doubles, their exponent notation in `'00' + n`, and `-0` are not modelled; the clock only ever feeds integers of far less than 2^53 here.
- Regular expressions in general are not modelled. Only the four patterns of bot.js:41-43 and 176 are hand-coded.
- Engine.Bot.StopTimer: models the intended stop of bot.js:108-112. As written, bot.js:109 throws before the timer is stopped and before anything is said (see "## Findings"; `StopAsWritten` models that).
- Engine.StopStep: the intended stop, not the throw at bot.js:109; `StopAsWritten` is the stop as written.
- Engine.StopIdempotent: holds of the intended stop. As written, each stop of a stored timer throws, says nothing and leaves it armed (`StoppedTimerStillRings`).
- Engine.StartAndStopInOneMessage: holds of the intended stop. As written, such a message says only `started` and the timer stays armed (`StartAndStopAsWritten`).
- Engine.StoppedTimerStillRings: the ringing assumes the uncaught `TypeError` does not end the Node process; whether it does is not modelled.
- Engine.StopBranch: runs the intended stop, not the throw at bot.js:109.
- Engine.Obey: runs the intended stop, not the throw at bot.js:109; `ObeyAsWritten` is the handler as written.
- Engine.Dispatch: runs the intended stop, not the throw at bot.js:109.
- Engine.Bot.ObeyIntents: runs the intended stop, not the throw at bot.js:109.
- Engine.Bot.HandleMessage: runs the intended stop, not the throw at bot.js:109.
- Engine.ObeyAsWritten: a throw that leaves the handler is modelled as the handler stopping there. What tmi.js and Node do with the uncaught `TypeError` afterwards is not modelled.
- Commands.IsValidCommand: the badge map is always present. bot.js:207 would throw if the chat service left `user.badges` null; that case is not modelled.
- Engine.StartStep: the dictionary is a JavaScript array used as an object. The names it inherits from `Array.prototype` and `Object.prototype` (`length`, `push`, `__proto__`, …) are treated as absent, although in JavaScript they are not `undefined`.

## Findings

| source | as written | input that shows it | evidently intended | confidence | as-written member | corrected member |
|---|---|---|---|---|---|---|
| bot.js:109 | `var timer = self.timers[name]` reads the timer from `self.timers`, which the chat client passed as `self` does not have (its timers live in `self.opts.timers`, as the guard on bot.js:108 reads them), so the lookup throws a `TypeError` | a moderator writes `!eggtimer start boil 1m`, then `!eggtimer stop boil` | `self.opts.timers[name]`: the timer is stopped and `Timer boil has been stopped.` is said | high, relying on tmi.js's client having no `timers` property; not executed | Engine.StopAsWritten | Engine.StopStep |
