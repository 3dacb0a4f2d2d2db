# 起きるくん: a verified model of the wake-up bot's state machine

起きるくん is a LINE group bot that keeps a group of friends getting up on
time. Each member sets a wake-up time ("7時に起きる", "6:30に起きる") and
sends a wake-up report ("おはよう") every morning. Once a week a member may
declare a pass for the next morning ("ぐっすり"), before 22:00. At noon the
bot checks every group. If everyone with a wake-up time either reported
today or used the pass, the group's streak goes up by one. Otherwise the
streak drops to 0 and the late members are named. The bot stores users,
groups and memberships in three tables.

This project models the bot's domain logic in `index.js`:

- The command classifier (`command_parser.dfy`). It contains a leftmost
  search for the time-setting pattern `(\d{1,2})(?::|(時))(\d{0,2})に起きる`
  and checks the keyword lists in their fixed priority order.
- The calendar arithmetic in Asia/Tokyo (`time_service.dfy`). It covers the
  local day, the local hour and the Sunday week start.
- The replies, as outcome tags (`replies.dfy`). The only text kept is the
  two-digit minute padding.
- The rows (`entities.dfy`) and the per-user transitions, as functions from
  a row to the row written back plus the reply (`user_state.dfy`).
- The noon check as a specification over the tables (`daily_aggregator.dfy`).
- The store as a class holding the three tables (`store.dfy`). Its two
  entry points are the webhook event handler and the noon check. Both are
  proved against the functions above and keep the store invariant `Valid()`.

Instants are whole seconds since the epoch. The local day is
`floor((t + 9h) / 1 day)`. `week_start_date` is kept as a local day number.
Its `YYYY-MM-DD` rendering is one-to-one, so comparing the numbers is the
same as comparing the stored strings.

The model follows the code where the code and the documented intent differ:

- The wake report never compares the report time with the configured
  wake-up time.
- The already-reported check reads only `last_report`.
- The nightly reset clears the flags of every member id, including members
  with no wake-up time.
- A store error in one group ends the whole noon run.
- The user row's `name` is written when the row is created and never
  refreshed.

Two places where the code is evidently wrong are listed under
"## Findings". The store follows the code there too. Beside each
as-written definition, with its flaw exhibited, stands a corrected
definition with the intended property proved.

## Model

| member | source | states |
|---|---|---|
| TimeService.LocalDay | index.js:12 | the local day brackets the instant: day start <= t + 9h < next day start (Asia/Tokyo, no daylight saving) |
| TimeService.LocalHour | index.js:407-409 | the local hour is in 0..23 and brackets the instant within its local day |
| TimeService.WeekStart | index.js:135-137 | the week start is a Sunday, on or before the local day and less than seven days before it |
| TimeService.WeekStartUnique | index.js:135-137 | any Sunday on or before the local day and within seven days of it is the week start |
| TimeService.SameDaySameWeek | index.js:131-137 | two instants on the same local day share their week start |
| TimeService.WeekStartMonotone | index.js:218-231 | the week start never moves backwards as time advances, so the rollover only moves forward |
| TimeService.SameDay | index.js:131-133 | two instants are on the same local day exactly when the second lies within the 24 local hours of the first's day; such instants are less than a day apart |
| TimeService.SameWeekWithinSevenDays | index.js:135-137 | instants with the same week start are less than seven local days apart |
| CommandParser.DigitsValue | index.js:312-313 | a decimal digit string's value (parseInt base 10) is below 10^length |
| CommandParser.PatternUnique | index.js:29 | at a given start position the pattern's hour and minute groups are determined |
| CommandParser.LeftmostUnique | index.js:29 | the leftmost match and its group values are unique |
| CommandParser.MatchAtCorrect | index.js:29 | the backtracking matcher at one position returns a match exactly when the pattern matches there, with the groups' values |
| CommandParser.MatchAtComplete | index.js:29 | wherever the pattern matches with groups hd and md, the matcher returns their values, an empty minute group read as 0 |
| CommandParser.FindFrom | index.js:29 | the search returns the leftmost match at or after a position, or none when nothing matches from there on |
| CommandParser.MatchValuesBelow100 | index.js:29 | the groups of a match have at most two digits, so hours and minutes read as numbers below 100 |
| CommandParser.FindTimeSetting | index.js:235 | `text.match` finds a time setting exactly when the pattern occurs anywhere in the text; it is the leftmost one, and both values are below 100 |
| CommandParser.ContainsIff | index.js:127-129 | `includes` holds exactly when the keyword occurs at some position |
| CommandParser.WakeupReportIff | index.js:127-129 | the text is a wake report exactly when some wake keyword occurs in it as a substring |
| CommandParser.Classify | index.js:233-274 | each intent holds exactly under its priority condition: the time pattern first, then a wake keyword substring, then exact equality with a good-sleep, cancel, record, settings or help keyword, otherwise Unknown; a time setting carries values below 100 |
| CommandParser.ClassifyMatchAtStart | index.js:29 | a text that starts with a match classifies as that time setting, with the parsed hours and minutes |
| Replies.DecimalRoundTrip | index.js:336-339 | a number rendered in decimal reads back as the same number; below 10 it takes one digit, below 100 two |
| Replies.PadMinutes | index.js:333 | minutes below 100 render as exactly two digits that read back as the minutes |
| UserStateMachine.RollWeek | index.js:218-231 | when the stored week start is not the current one, it becomes the current one and the weekly count becomes 0; otherwise the row is unchanged |
| UserStateMachine.ConfigureWakeupTime | index.js:310-339 | accepted iff hours <= 23 and minutes <= 59; on success only the two wake-up columns change and the reply carries two-digit minutes; on rejection the row is untouched |
| UserStateMachine.ReportWakeup | index.js:361-391 | a report on the day of the last one is AlreadyReported with no change, checked before the unset-time check (NoTimeSet, no change); otherwise last_report := now and today_reported := true, nothing else changes |
| UserStateMachine.DeclareGoodSleep | index.js:405-441 | from 22:00 local time on it is refused with no change; else a weekly count >= 1 is refused; else joker_used, last_joker_date := now and the count goes up by one, and it succeeds iff hour < 22 and count < 1 |
| UserStateMachine.CancelGoodSleep | index.js:465-481 | refused with no change unless joker_used; otherwise joker_used := false and the weekly count goes down by one, unclamped |
| UserStateMachine.SettingsReply | index.js:538-556 | NoTimeSet exactly when a wake-up column is unset; otherwise the hours and the minutes as two digits |
| UserStateMachine.RecordReply | index.js:497-516 | outside a group the reply is GroupOnly; in a group it reports the current and best streaks |
| UserStateMachine.ResetDailyFlags | index.js:636-642 | clears today_reported and joker_used and changes no other column |
| UserStateMachine.Respond | index.js:233-274 | the week start and name never change; read-only intents leave the row alone; only a time setting changes the wake-up columns, only a declare or cancel the weekly count, only a report last_report (to now) |
| UserStateMachine.ConfirmationReparses | index.js:333-339 | the confirmed time, written back as hours ":" padded minutes followed by に起きる, classifies as the same time setting |
| UserStateMachine.ReportIgnoresConfiguredTime | index.js:377-382 | two rows differing only in their configured wake-up time get the same report outcome |
| UserStateMachine.ReportOncePerDay | index.js:361-391 | after a recorded report, another one that day is AlreadyReported with no change, and one on another day is recorded |
| UserStateMachine.DeclareThenCancel | index.js:426-481 | a successful declare followed by a cancel restores the weekly count and clears joker_used |
| UserStateMachine.NoSecondDeclare | index.js:426-441 | after a successful declare, a second declare is refused when the weekly count was not negative; from a count of -1, a second declare before 22:00 is accepted too |
| UserStateMachine.RollWeekIdempotent | index.js:218-231 | a rollover repeated within the same week changes nothing |
| UserStateMachine.RolloverOncePerWeek | index.js:218-231 | over any run of messages in one week the rollover acts at most once, on the first message |
| UserStateMachine.NoRolloverWithinWeek | index.js:218-231 | once the stored week start is current, every later rollover in that week is the identity |
| UserStateMachine.CancelGoodSleepClamped | index.js:465-481 | corrected cancel: refused with no change unless joker_used; a count of 1 or more goes down by one exactly as in the cancel; a count below 1 is set to 0 with joker_used cleared and no other column changed, so a count that is not negative stays not negative |
| UserStateMachine.ClampedTransitionsKeepCount | index.js:218-231 | rollover (index.js:218-231), declare (index.js:426-441), clamped cancel (index.js:474-481) and nightly reset (index.js:636-642) all keep the weekly count within 0..1 |
| UserStateMachine.TransitionsKeepBounds | index.js:218-231 | the code's rollover (index.js:218-231), declare (index.js:426-441), unclamped cancel (index.js:474-481) and nightly reset (index.js:636-642) keep the weekly count within -1..1 and not negative while a joker is used |
| UserStateMachine.Interact | index.js:218-274 | a text message leaves the stored week start current, runs the command alone within the stored week, and keeps those count bounds |
| UserStateMachine.CancelAfterRolloverGrantsTwoPasses | index.js:479 | as written: declare Saturday, cancel Sunday morning, and two declarations succeed in the new week |
| UserStateMachine.ClampedCancelGrantsOnePass | index.js:479 | corrected: in the same sequence, the second declaration of the week is refused |
| DailyAggregator.ResetFlags | index.js:636-642 | every member id that has a row gets both daily flags cleared, every other row is unchanged, and no row is added or removed |
| DailyAggregator.NextStreak | index.js:646-673 | no failure: current + 1 and best := max(best, current + 1); a failure: current := 0, best unchanged; 0 <= current <= best is preserved |
| DailyAggregator.CheckGroupWith | index.js:590-683 | a group with no member having a wake-up time is left unchanged with no message; otherwise every member is reset, the streak follows NextStreak, one message is pushed (success with the new streak, or the failed set with the old streak), no other group changes |
| DailyAggregator.RunFrom | index.js:578-688 | the run keeps the tables' keys, only appends messages, aborts exactly when it reaches a group whose rows cannot be loaded, and preserves the streak invariant |
| DailyAggregator.Run | index.js:578-688 | the noon run as written (each group's verdict reads the rows as earlier resets left them) adds or removes no row, aborts exactly when it reaches a faulty group, keeps the streak invariant and lowers no best streak |
| DailyAggregator.RunIsolated | index.js:578-688 | corrected run (verdicts read the rows as they stood at the start): the same guarantees as the run as written |
| DailyAggregator.FailedAreExactlyTheLate | index.js:612-633 | a member fails iff a wake-up time is set, no joker is used and no report falls on today; joker users and members without a time never fail |
| DailyAggregator.FaultStopsLaterGroups | index.js:597-609 | groups at or after the first one with a store error keep their rows |
| DailyAggregator.BroadcastsNameRunGroups | index.js:590 | every pushed message names a group of the run |
| DailyAggregator.RunKeepsBest | index.js:646-673 | the run never lowers a best streak, and a group outside the run keeps its row |
| DailyAggregator.IsolatedVerdicts | index.js:612-633 | corrected run: each message lists exactly its group's failures as the rows stood at the start |
| DailyAggregator.IsolatedJokerNeverFails | index.js:622-627 | corrected run: a member whose joker was set at the start is named as failed by no group |
| DailyAggregator.JokerConsumedByFirstGroup | index.js:636-642 | as written: one member of two groups with the joker set succeeds in the first and fails in the second |
| DailyAggregator.JokerHonouredInEveryGroup | index.js:622-627 | corrected: the same member succeeds in both groups |
| Bot.Store.EnsureUser | index.js:158-180 | a missing user row is inserted with the display name, the current week start and defaults; an existing row is kept |
| Bot.Store.EnsureGroup | index.js:183-196 | a missing group row is inserted with both streaks at 0; an existing one is kept, so a repeat adds nothing |
| Bot.Store.EnsureMembership | index.js:198-215 | afterwards the (group, user) pair is a membership; a repeat adds nothing |
| Bot.Store.RunCommand | index.js:218-274 | the sender's row becomes the rollover then the command's row, and the reply is the command's reply |
| Bot.Store.HandleText | index.js:149-274 | the user, group and membership are upserted, then the sender's row and the reply are those of the rollover and the command |
| Bot.Store.HandleEvent | index.js:140-280 | a text message upserts the user, group and membership and then runs its command on the rolled-over row; join and member-joined reply Welcome; other events change nothing; the store invariant (memberships name rows, streak invariant, the code's count bounds) is kept |
| Bot.Store.SortMembers | index.js:612-633 | the loop collects exactly the members with a wake-up time, and among them exactly the failed ones |
| Bot.Store.CheckGroupInPlace | index.js:590-683 | one group's check in place equals the specified check of that group, judged on the rows it is given |
| Bot.Store.CheckAllGroupReports | index.js:578-688 | the noon run leaves the tables and the pushed messages as the run as written specifies, each group judged on the rows as earlier resets left them; a failure to list the groups changes nothing; the store invariant is kept |

## Left out

- The Express server, the webhook route, the signature middleware and the
  handling of several events at once. The model handles one event at a
  time, so races between events are not modelled.
- LINE calls are left out. The display name is a field of the event, a
  reply is the returned `Reply`, and a push is an appended `Broadcast`.
  Help, welcome and other template texts are outcome tags.
- A failing push is not modelled. In the code it would end the noon run
  like a store error.
- The database client. Each table is a map or a set in the store. "Row not
  found" is a membership test. New rows get their column defaults as
  written by `NewUser` and `NewGroup`, because the schema is not part of
  this model.
- Store errors during message handling are not modelled; the handler would
  drop the message silently. Errors of the noon run are modelled as
  `groupsUnavailable` and the `faulty` groups.
- Update statements whose error the code ignores are modelled as
  succeeding.
- The cron schedule, environment loading and logging. The noon run is a
  method that the caller invokes.
- The clock. `now` and `today` are parameters, taken once per event.
- moment-timezone. It is replaced by fixed UTC+9 day arithmetic with Sunday
  week starts.
- Bot.Store.HandleEvent: the name used in replies comes from the event and
  is never written back to an existing row, as in the code.
- DailyAggregator.CheckGroupWith: failed members are a set of ids, not the
  list of names joined for the message. The message's order of names is
  not modelled.

## Findings

| source | as written | input that shows it | evidently intended | confidence | as-written member | corrected member |
|---|---|---|---|---|---|---|
| index.js:636-642 | each group's reset clears `joker_used` before the next group is judged, and the next group reads the rows fresh | a user in groups a and b with the joker set and no report: a succeeds, then b names the user as failed | a joker user is exempt in every group for that day | not executed | DailyAggregator.JokerConsumedByFirstGroup | DailyAggregator.IsolatedJokerNeverFails |
| index.js:479 | cancel lowers `week_joker_count` by one without a floor, and the week rollover may already have set it to 0 | declare Saturday 21:00, cancel Sunday 09:00 (count -1), declare Sunday 21:00 and again Monday 21:00: both accepted | at most one pass per week, so the count never drops below 0 | not executed | UserStateMachine.CancelAfterRolloverGrantsTwoPasses | UserStateMachine.CancelGoodSleepClamped |
