# Cycling streak: a Dafny model

This project models the logic at the core of a cycling-streak app: an Express/PostgreSQL back end and a React Native client. Riders log one ride per calendar day. The app keeps an *ofensiva*, a streak of riding days that survives gaps of up to three days. It also records live rides from GPS fixes, with automatic pause and resume.

Modules, one per source file:

- `StreakEngine` (`streak_engine.dfy`) — `backend/controllers/rideController.js`.
  - One user's `pedais` rows are a map from day number to ride entry. The `ofensivas` row is an optional `StreakRow`.
  - `RideLedger.AddRide` is the `addRide` transaction. It sanitises, upserts, creates a missing row, applies the gap rule and replies.
  - The gap rule is the pure function `Advance`.
  - `HistoryOf` and `DashboardOf` are the `getHistory` and `getDashboard` queries.
- `Days` (`days.dfy`) — the newest-first listing of a set of days, shared by `ORDER BY data_pedal DESC` and the client's sort-and-dedupe.
- `ClientStreak` (`client_streak.dfy`) — `src/utils/streakLogic.js`, `calculateStreak`, as a method with its chain-counting loop.
- `RideContext` (`ride_context.dfy`) — `src/context/RideContext.js`.
  - The dashboard's risk and displayed-streak derivation.
  - The default payload of `addRide`.
  - The provider's state (`RideProvider`).
- `LocationTracking` (`location_tracking.dfy`) — `src/services/LocationTracking.js`.
  - The module's mutable variables are the fields of class `Tracker`.
  - Each method is proved to move `State()` by a pure transition (`Pause`, `Resume`, `HandleBatch`, `Tick`, `Start`, `AfterStop`). The lemmas are stated about those transitions.
  - Time is the parameter `now` (ms). The haversine distance is the function parameter `dist`. The callbacks become an event log.
- `RideForms` (`ride_forms.dfy`) — the ride-entry forms `src/components/RideModal.js` and `src/screens/ManualRideScreen.js`.
- `Register` (`register.dfy`) — `src/screens/RegisterScreen.js`: the e-mail pattern, the order of the checks, and the error messages.
- `DurationFormat` (`duration_format.dfy`) — `formatDuration` and `formatTime`, which are the same `HH:MM:SS` formula.
- `ActiveRide` (`active_ride.dfy`) — `src/components/ActiveRideModal.js`: the stop dialog and what the panel shows.
- `Common` (`common.dfy`) — `Option`, JavaScript's `Math.round`/`Math.ceil`, and loosely typed JSON values (`JsValue`) with their truthiness.

Calendar days are integer day numbers and timestamps are integer milliseconds. JavaScript numbers are exact reals. Integer `toString` (the `HH:MM:SS` fields) is modelled concretely as decimal digits (`DurationFormat.Digits`), and so is `parseFloat(x.toFixed(2))` of the stopped ride's distance (`LocationTracking.Round2`). The other conversions are function parameters: `parseFloat`/`parseInt` of the form fields (`parseFloat`, `parseInt` in `RideForms`), `toString` of a stored ride's distance and minutes (`showReal`, `showInt` in `RideForms.RideModal.FetchTodayRide`), `toFixed(2)` of the live distance (`fixed2` in `ActiveRide.Render`), and the saved distance in the success alert, which arrives as text (`savedDistance` in `ActiveRide.SaveNotice`).

The model follows the code, including where it behaves unexpectedly. The lemmas state these cases explicitly:

- `stopTracking` reports wall-clock minutes, paused time included (`StopCountsPausedTime`).
- `startTracking` neither refuses a second start nor resets the pause fields, so a ride stopped while paused starts the next one paused, with negative live durations (`RestartInheritsPause`).
- `startTracking` resets the ride and starts the timer before asking for permission, so a refusal leaves the ride started (`Tracker.StartTracking`).
- The dashboard says "danger" at a two-day gap, where `calculateStreak` says "warning" (`RiskSchemesDifferOnlyAtTwoDays`).
- `streakLogic.js`'s header comment says a streak is lost on the third day without riding. The code keeps it up to a three-day gap and drops it only after more than three days. The model follows the code.

## Model

| member | source | states |
|---|---|---|
| `Common.Round` | backend/controllers/rideController.js:35 | `Math.round`: the result is within half of x, halves rounding up |
| `Common.Ceil` | backend/controllers/rideController.js:38 | `Math.ceil`: the least integer not below x |
| `Common.Abs` | backend/controllers/rideController.js:73 | `Math.abs` of a day difference: x or -x, never negative |
| `Days.NewestFirst` | backend/controllers/rideController.js:128 | `ORDER BY data_pedal DESC` over distinct days: every day exactly once, strictly descending |
| `Days.Latest` | src/utils/streakLogic.js:19-27 | the first day after sorting descending is in the set and is not below any other day |
| `Days.PrefixHoldsLatest` | backend/controllers/rideController.js:153-156 | the first k days of the descending listing are the k latest: every day left out is older than every day kept |
| `StreakEngine.SanitizedEntry` | backend/controllers/rideController.js:19-38 | non-number distance becomes 0; duration is `round(duracao_seg)`, else `duracao_min*60`, else 60; minutes column is ceil(seconds/60), i.e. (min-1)*60 < sec <= min*60 |
| `StreakEngine.RideDay` | backend/controllers/rideController.js:14-16 | the ride is filed under `data_pedal` when given, else under today |
| `StreakEngine.Advance` | backend/controllers/rideController.js:62-103 | new streak follows the gap rule, `ultimo_pedal` becomes the ride day, record is max(old record, new streak) so record >= streak and never drops |
| `StreakEngine.NextStreak` | backend/controllers/rideController.js:62-89 | the new streak is 1, the old streak, or the old streak plus one; 1 with no `ultimo_pedal`; never below 1 once a streak exists |
| `StreakEngine.FirstRideStartsStreak` | backend/controllers/rideController.js:86-89 | no `ultimo_pedal` gives streak 1; a fresh 0/0 row becomes (1, 1, day) |
| `StreakEngine.ConsecutiveDayExtends` | backend/controllers/rideController.js:76-78 | a gap of exactly one day raises the streak by exactly one |
| `StreakEngine.GraceGapKeeps` | backend/controllers/rideController.js:79-81 | a gap of 2 or 3 days keeps the streak |
| `StreakEngine.LongGapRestartsAtOne` | backend/controllers/rideController.js:82-85 | a gap of 4 or more days restarts the streak at 1, never 0 |
| `StreakEngine.BackdatedRideMirrorsGap` | backend/controllers/rideController.js:73-74 | the gap is absolute: a ride k days before `ultimo_pedal` is judged like one k days after, and still becomes `ultimo_pedal` |
| `StreakEngine.GraceThenConsecutiveScenario` | backend/controllers/rideController.js:66-94 | rides on days 0, 2, 3 from a fresh row give streaks 1, 1, 2 and record 2 |
| `StreakEngine.NewDayHasPositiveGap` | backend/controllers/rideController.js:66-74 | in a consistent ledger a new day is never at gap 0 from `ultimo_pedal` (the case no branch handles) |
| `StreakEngine.NoLastRideIffNoRides` | backend/controllers/rideController.js:66-103 | in a consistent ledger `ultimo_pedal` is null exactly when the user has no rides, since only `addRide` stores rides and it always sets `ultimo_pedal` on a new day |
| `StreakEngine.RideLedger.constructor` | backend/controllers/authController.js:27 | a new user has no rides and, when registered, the 0/0 row |
| `StreakEngine.RideLedger.AddRide` | backend/controllers/rideController.js:3-112 | the day's entry is upserted with the sanitised values; a missing row is created as 0/0; an existing day leaves the streak row untouched; a new day applies `Advance`; the reply echoes the stored streak and record; ledger consistency is preserved; the ledger invariant `Valid` is preserved: every stored ride leaves a row, whose `ultimo_pedal` is missing exactly when there are no rides |
| `StreakEngine.HistoryOf` | backend/controllers/rideController.js:124-131 | the rows in the order of the newest-first listing of the user's days, each with its stored entry |
| `StreakEngine.HistoryListsEachRideOnce` | backend/controllers/rideController.js:127-130 | the history has one row per stored day, every stored day appears, days strictly descending |
| `StreakEngine.Window` | backend/controllers/rideController.js:150-156 | `ORDER BY data_pedal DESC LIMIT n`: min(n, rides) rows, a prefix of the history |
| `StreakEngine.TotalKm` | backend/controllers/rideController.js:148 | `COALESCE(SUM(distancia_km), 0)`: not negative over non-negative distances, a single ride's distance for one row |
| `StreakEngine.TotalSeconds` | backend/controllers/rideController.js:149 | `COALESCE(SUM(duracao_seg), 0)`: not negative over non-negative durations, a single ride's seconds for one row |
| `StreakEngine.TotalsSplit` | backend/controllers/rideController.js:148-149 | the totals are sums: over two runs of rides they add up |
| `StreakEngine.WindowOfOne` | backend/controllers/rideController.js:150-155 | `LIMIT 1` of the newest-first listing is the latest ride with its stored entry |
| `StreakEngine.DashboardOf` | backend/controllers/rideController.js:138-174 | recent rides are the first min(7, rides) of the history; no row gives all zeros; otherwise the row with km and seconds summed over the `ofensiva_atual` latest rides |
| `StreakEngine.WindowHoldsLatestRides` | backend/controllers/rideController.js:150-156 | every ride outside the totals window is older than every ride inside it |
| `StreakEngine.RestartedStreakTotalsLatestRide` | backend/controllers/rideController.js:141-157 | with streak 1 the totals are exactly the latest ride's distance and seconds |
| `ClientStreak.DistinctNewestFirst` | src/utils/streakLogic.js:18-20 | sort-then-dedupe keeps each date once, exactly the input's dates, strictly descending, no longer than the input |
| `ClientStreak.SameDaysSameListing` | src/utils/streakLogic.js:18-20 | input order and duplicates do not matter: the same set of dates gives the same listing |
| `ClientStreak.ChainLengthUnique` | src/utils/streakLogic.js:57-71 | the length of the linked chain at the head of the listing is unique, so the streak is determined |
| `ClientStreak.LatestDateFirst` | src/utils/streakLogic.js:19-27 | `uniqueDates[0]` is an input date and no input date is later |
| `ClientStreak.CountChain` | src/utils/streakLogic.js:57-71 | the loop stops at the first gap over 3 days: its count is the length of the linked chain at the head, at least 1 |
| `ClientStreak.RiskAfter` | src/utils/streakLogic.js:47-79 | safe iff at most 1 day, warning iff 2, danger iff 3, lost iff more than 3 |
| `ClientStreak.CalculateStreak` | src/utils/streakLogic.js:13-81 | null/empty gives (0, safe, null, 0); otherwise `lastRideDate` is the latest input date and `daysMissed` is the distance to today; more than 3 gives streak 0 and lost; else the streak is the chain of gaps <= 3 (>= 1, <= distinct dates) and risk is danger at 3, warning at 2, safe below |
| `RideContext.DeriveStreakData` | src/context/RideContext.js:26-62 | no row or no `ultimo_pedal`: safe, 0 missed, streak is `ofensiva_atual` or 0; else `daysMissed` is the day gap, lost from 4 with streak shown as 0, danger from 2, safe below; record or 0 and `lastRideDate` passed through |
| `RideContext.DashboardRisk` | src/context/RideContext.js:42-50 | never warning; safe iff a gap of at most 1 day, danger iff 2 or 3, lost iff 4 or more |
| `RideContext.RiskNeverEasesWithTime` | src/context/RideContext.js:42-50 | under both schemes a longer gap never gives a milder risk |
| `RideContext.RiskSchemesDifferOnlyAtTwoDays` | src/context/RideContext.js:42-50 | the dashboard scheme and `calculateStreak`'s scheme agree on every gap but 2 (danger against warning) |
| `RideContext.OldSummaryShownLost` | src/context/RideContext.js:42-45 | a summary more than three days old is shown as lost with streak 0 and its record |
| `RideContext.LostStreakShownAsZero` | src/context/RideContext.js:42-45 | after 4+ idle days the dashboard shows 0 and lost while the server row keeps its streak until the next ride restarts it at 1 |
| `RideContext.ClientPayload` | src/context/RideContext.js:82-86 | falsy distance becomes 10, falsy duration 30, sent as `duracao_min` and dated today |
| `RideContext.OneClickRideStored` | src/context/RideContext.js:81-86 | the one-click ride is stored today as 10 km, 1800 s, 30 min |
| `RideContext.ClientMinutesStoredAsSeconds` | src/context/RideContext.js:84 | a duration sent by the client is stored as minutes*60 seconds and, for whole minutes, the same minutes |
| `RideContext.RideProvider.constructor` | src/context/RideContext.js:8-17 | initial streak data (0, 0, safe, 0, null), no rides, not loading |
| `RideContext.RideProvider.FetchDashboard` | src/context/RideContext.js:19-71 | nothing without a token; on an answer, the derived streak data and recent rides (or []); on failure the old data; loading ends off |
| `RideContext.RideProvider.AddRide` | src/context/RideContext.js:79-99 | posts `ClientPayload`; a failed post changes nothing and is reported; after a successful post the dashboard is refreshed as `FetchDashboard` does: no token changes nothing, a failed refresh keeps the old data, an answer installs the derived data; loading ends off |
| `RideContext.RideProvider.LoadHistory` | src/context/RideContext.js:101-109 | the server's list, or [] on failure |
| `LocationTracking.AbsorbAllPath` | src/services/LocationTracking.js:63-67 | every fix of a batch is appended to the path in order, paused or not |
| `LocationTracking.Pause` | src/services/LocationTracking.js:204-210 | a running ride becomes paused from now and the pause callback hears `true`; a paused ride is left alone; ride data untouched |
| `LocationTracking.Resume` | src/services/LocationTracking.js:212-219 | a coherent ride ends up running; the paused time so far is unchanged at that instant; the callback hears `false`; a running ride is left alone |
| `LocationTracking.Absorb` | src/services/LocationTracking.js:38-67 | one fix is appended to the path; distance never drops, and grows only on a running ride, stamping the movement time; a fix never pauses the ride |
| `LocationTracking.Emit` | src/services/LocationTracking.js:73-88 | with an update callback and a start time, exactly one snapshot (distance, wall-clock minus paused milliseconds over 1000, path) is appended to the events; otherwise nothing changes; the ride data is never touched |
| `LocationTracking.AbsorbAll` | src/services/LocationTracking.js:36-68 | the loop over a batch: the path grows by one fix per fix, the distance never drops, a batch never pauses the ride, and start time, interval and update callback are kept |
| `LocationTracking.HandleBatch` | src/services/LocationTracking.js:33-71 | ignored with no start time; otherwise the path grows by the batch, distance never drops, and with an update callback the last event is the snapshot of the new state |
| `LocationTracking.Tick` | src/services/LocationTracking.js:126-137 | a cleared interval does nothing; ride data untouched; pauses at now exactly when running with a movement more than 10000 ms old, otherwise the pause fields stay; with the interval on, an update callback and a ride, the last event is the snapshot of the new state |
| `LocationTracking.Start` | src/services/LocationTracking.js:114-137 | a fresh ride (distance 0, empty path, start and movement time now), interval on, update callback set; pause fields, pause callback and past events kept |
| `LocationTracking.Round2` | src/services/LocationTracking.js:176 | a whole number of hundredths within half a hundredth of the input |
| `LocationTracking.StopReport` | src/services/LocationTracking.js:174-182 | the path as stored; distance within 0.005 km; minutes within half a minute of the wall-clock time since the start |
| `LocationTracking.AfterStop` | src/services/LocationTracking.js:160-187 | no ride, no interval, no callbacks, empty path and distance 0; last movement time, pause fields and past events kept |
| `LocationTracking.StoppedRideIgnoresUpdates` | src/services/LocationTracking.js:160-187 | after a stop (no start time, interval cleared) a late batch and a tick change nothing |
| `LocationTracking.AbsorbAllKeeps` | src/services/LocationTracking.js:37-68 | a batch never lowers the distance, keeps start time, interval and callbacks, and keeps pause flag and marker together |
| `LocationTracking.QuietBatchWhilePausedAddsNothing` | src/services/LocationTracking.js:49-60 | while paused, a batch with no move over 10 m adds no distance and leaves the pause open |
| `LocationTracking.QuietFixWhilePaused` | src/services/LocationTracking.js:49-60 | a fix within 10 m of the last one leaves a paused ride paused with its distance and pause fields |
| `LocationTracking.FirstFixAddsNothing` | src/services/LocationTracking.js:39-41 | the first fix is stored and adds no distance |
| `LocationTracking.MoveCountsOnlyWhileRunning` | src/services/LocationTracking.js:54-60 | distance grows only by a positive move while not paused, and each such addition stamps `lastMovementTime` |
| `LocationTracking.AutoResumeCountsTheMove` | src/services/LocationTracking.js:49-59 | a move over 0.01 km while paused resumes (adding the pause span) and that same move is counted |
| `LocationTracking.InactiveBatchIgnored` | src/services/LocationTracking.js:35 | fixes arriving with no start time, including after a stop, change nothing |
| `LocationTracking.ActiveBatchStoresEveryFix` | src/services/LocationTracking.js:33-70 | on an active ride the path grows by exactly the batch and distance does not drop |
| `LocationTracking.PauseIdempotent` | src/services/LocationTracking.js:204-210 | only an unpaused call stamps the pause and notifies; pausing twice equals pausing once |
| `LocationTracking.ResumeAddsPauseLength` | src/services/LocationTracking.js:212-219 | a no-op unless paused; otherwise adds exactly now - pauseStart to paused time and clears the marker |
| `LocationTracking.PausedDurationFrozen` | src/services/LocationTracking.js:73-84 | while paused the live duration does not change with time |
| `LocationTracking.PauseIntervalExcluded` | src/services/LocationTracking.js:75-84 | a pause from t1 to t2 removes exactly t2 - t1 from later live durations |
| `LocationTracking.PauseResumeContinuous` | src/services/LocationTracking.js:204-219 | pausing or resuming does not make the live duration jump |
| `LocationTracking.TickAutoPause` | src/services/LocationTracking.js:126-137 | the tick pauses a running ride more than 10000 ms after the last movement and otherwise leaves it running |
| `LocationTracking.TransitionsStayCoherent` | src/services/LocationTracking.js:204-219 | every transition keeps `isPaused` and `pauseStartTime` set together |
| `LocationTracking.StopCountsPausedTime` | src/services/LocationTracking.js:173-182 | for every started ride the reported minutes are round((active + paused ms) / 60000), so never below the active minutes while paused time is not negative; distance is `Round2` of the distance and the path is returned |
| `LocationTracking.StopTenMinutesPausedAfterOne` | src/services/LocationTracking.js:173-176 | a 10-minute ride paused after 1 minute reports 10 minutes though its snapshots froze at 60 s |
| `LocationTracking.RestartInheritsPause` | src/services/LocationTracking.js:114-122 | start keeps `isPaused`, `pausedTime`, `pauseStartTime`; a ride stopped while paused restarts paused with a negative live duration |
| `LocationTracking.Tracker.constructor` | src/services/LocationTracking.js:7-18 | the module's initial variables |
| `LocationTracking.Tracker.SetOnPauseChange` | src/services/LocationTracking.js:110-112 | registers or clears the pause callback, nothing else |
| `LocationTracking.Tracker.PauseTracking` | src/services/LocationTracking.js:204-210 | the new state is `Pause` of the old |
| `LocationTracking.Tracker.ResumeTracking` | src/services/LocationTracking.js:212-219 | the new state is `Resume` of the old |
| `LocationTracking.Tracker.EmitUpdate` | src/services/LocationTracking.js:73-88 | the new state is `Emit` of the old: one snapshot (distance, active seconds, path) appended exactly when a callback and a start time exist |
| `LocationTracking.Tracker.AbsorbFix` | src/services/LocationTracking.js:38-67 | one loop iteration equals `Absorb` of the old state |
| `LocationTracking.Tracker.HandleNewLocations` | src/services/LocationTracking.js:33-71 | the loop leaves the state `HandleBatch` of the old: every fix absorbed in order, then one snapshot |
| `LocationTracking.Tracker.TimerTick` | src/services/LocationTracking.js:126-137 | the new state is `Tick` of the old |
| `LocationTracking.Tracker.StartTracking` | src/services/LocationTracking.js:114-158 | the new state is `Start` of the old whatever the permission; the result reports the permission |
| `LocationTracking.Tracker.StopTracking` | src/services/LocationTracking.js:160-190 | returns distance rounded to 2 decimals, wall-clock minutes and the path; clears ride data, interval and both callbacks |
| `LocationTracking.Tracker.GetCurrentStats` | src/services/LocationTracking.js:196-202 | zeros without a ride; otherwise distance and wall-clock seconds, which is active plus paused time |
| `RideForms.ValidateRide` | src/components/RideModal.js:44-61 | accepted iff both fields filled, distance parses > 0 and duration parses to an integer > 0, with those values; otherwise the message of the first failing check |
| `RideForms.DistanceJudgedFirst` | src/screens/ManualRideScreen.js:23-34 | when both numbers are bad, the distance's message is shown |
| `RideForms.ServerErrorText` | src/components/RideModal.js:72 | the server `msg` when present and non-empty, else the fallback; never empty |
| `RideForms.FirstRideOn` | src/components/RideModal.js:22-25 | `find`: the first ride dated today, or none exactly when no ride is dated today |
| `RideForms.FoundRideIsTheDaysRide` | src/components/RideModal.js:21-29 | over the server history a ride is found iff the day has a row, and it is that row |
| `RideForms.RideModal.constructor` | src/components/RideModal.js:8-12 | empty fields, not loading, no error |
| `RideForms.RideModal.FetchTodayRide` | src/components/RideModal.js:15-39 | nothing when not visible; prefill from today's ride, clear when none, keep fields on failure; fetching ends off |
| `RideForms.RideModal.HandleSubmit` | src/components/RideModal.js:44-76 | rejected input shows its message and submits nothing; valid input submits the parsed values; success clears and closes; failure shows the server text; loading ends off |
| `RideForms.RideModal.HandleClose` | src/components/RideModal.js:78-83 | clears both fields and the error |
| `RideForms.ManualRideForm.constructor` | src/screens/ManualRideScreen.js:12-15 | empty fields, not loading, no error |
| `RideForms.ManualRideForm.HandleSubmit` | src/screens/ManualRideScreen.js:17-47 | `addRide` gets the parsed values exactly when valid; success alerts and keeps loading on; failure shows the server text and turns loading off |
| `Register.ValidateEmailMatchesPattern` | src/screens/RegisterScreen.js:15-18 | `validateEmail` accepts exactly the strings local@host.tld with all three parts non-empty runs of non-space, non-@ characters |
| `Register.ValidateEmail` | src/screens/RegisterScreen.js:15-18 | an accepted address has at least 5 characters, no whitespace, and exactly one `@`, not in first place |
| `Register.RegisterCheck` | src/screens/RegisterScreen.js:20-34 | any empty field gives the fill-all message; else a bad e-mail its message; else a password under 6 characters its message; else none |
| `Register.EmailJudgedBeforePassword` | src/screens/RegisterScreen.js:26-34 | a bad e-mail is reported whatever the password; a valid e-mail with a 6-character password passes |
| `Register.RegisterErrorText` | src/screens/RegisterScreen.js:40-46 | 'User already exists' maps to the already-registered message, anything else to the generic one |
| `Register.RegisterForm.constructor` | src/screens/RegisterScreen.js:9-13 | empty fields, not loading, no error |
| `Register.RegisterForm.HandleRegister` | src/screens/RegisterScreen.js:20-50 | `register` is called iff every check passes; a failed check shows its message; a failed request shows the mapped message; loading ends off |
| `DurationFormat.RemBounds` | src/screens/RideSummaryScreen.js:56-57 | JavaScript `%` by 60 or 3600 lies strictly within (-y, y) with the sign of the dividend |
| `DurationFormat.Fields` | src/screens/RideSummaryScreen.js:55-57 | minutes and seconds are in -60..59, and no field is negative for a non-negative input |
| `DurationFormat.FieldsRecompose` | src/components/ActiveRideModal.js:106-108 | for s >= 0, h*3600 + m*60 + s = floor(seconds) |
| `DurationFormat.FormatClock` | src/screens/RideSummaryScreen.js:54-59 | `formatDuration`/`formatTime`: at least 8 characters; for a non-negative input the three fields' plain digits, zero-padded to 2, joined by colons |
| `DurationFormat.PadStart2` | src/screens/RideSummaryScreen.js:58 | `padStart(2, '0')`: length max(2, len), the original text at the end, zeros before it |
| `DurationFormat.DigitsRoundTrip` | src/screens/RideSummaryScreen.js:58 | `toString` of a non-negative integer is decimal digits reading back as the number |
| `DurationFormat.PaddedRoundTrip` | src/components/ActiveRideModal.js:109 | a padded field is all digits, at least 2 long (exactly 2 below 100), and reads back as its number |
| `DurationFormat.FieldsReadBack` | src/components/ActiveRideModal.js:105-110 | padded hours, minutes and seconds are all digits (2 for minutes and seconds) and read back as the numbers printed |
| `DurationFormat.FormatClockReadsBack` | src/screens/RideSummaryScreen.js:54-59 | for s >= 0 the text is three digit fields joined by ':', minutes and seconds 2 digits, hours never truncated, reading back to floor(seconds) |
| `DurationFormat.SummaryDuration` | src/screens/RideSummaryScreen.js:217 | a missing duration shows as 00:00:00, a present one as its `formatDuration` text |
| `DurationFormat.ZeroSecondsText` | src/screens/RideSummaryScreen.js:54-59 | zero seconds print as 00:00:00 |
| `ActiveRide.StopDialogFor` | src/components/ActiveRideModal.js:152-196 | continue and discard always, save offered iff the distance is not 0, no choice twice |
| `ActiveRide.StopArgument` | src/components/ActiveRideModal.js:158-190 | only save calls `stopLiveRide(true)`, discard calls it with false, continue calls nothing |
| `ActiveRide.OnlyRidesWithDistanceAreSaved` | src/components/ActiveRideModal.js:152-196 | a ride with zero distance can never be saved; discarding is always offered |
| `ActiveRide.SaveNotice` | src/components/ActiveRideModal.js:184-192 | success names the saved distance; a throw gives the failure alert |
| `ActiveRide.Render` | src/components/ActiveRideModal.js:198-245 | nothing unless recording; otherwise the distance to 2 decimals and the duration as HH:MM:SS |
| `ActiveRide.PanelDurationReadsBack` | src/components/ActiveRideModal.js:105-111 | the shown duration is the three padded fields, which recompose floor(seconds) with minutes and seconds below 60 |

## Left out

- Haversine distance (`calculateDistance`, `deg2rad`) is the parameter `dist` of the tracking functions. Nothing is assumed about it, so no trigonometric fact is needed.
- Location permissions, `startLocationUpdatesAsync`/`stopLocationUpdatesAsync`, `isTracking` and the TaskManager task are foreign async calls. The foreground permission result is an input of `Tracker.StartTracking`. The task's own `locations.length > 0` guard is not modelled.
- The `setInterval` timer is a flag plus `Tracker.TimerTick`, called explicitly with `now`. `Date.now()` is read once per operation. The source reads it again inside a call, which can differ by milliseconds.
- JavaScript truthiness of timestamps is not modelled: a `startTime` or `pauseStartTime` of exactly 0 would be falsy in the source. Each is an `Option` here.
- PostgreSQL is not modelled:
  - connections, `BEGIN`/`COMMIT`/`ROLLBACK`, the 500 replies;
  - column types (rounding of `NUMERIC`, integer overflow);
  - concurrent requests.
  The `(usuario_id, data_pedal)` uniqueness is the map key.
- JavaScript dates are not modelled: `new Date`, `toISOString`, `setHours`, time zones and the `ceil(ms / 86400000)` day arithmetic. Days are integers and gaps are their differences.
- The string grammar of `parseFloat` and `parseInt`, of `toString` of a stored ride's distance and minutes, and of `toFixed(2)` of the live distance is not modelled: these are the parameters named above.
- JavaScript numbers are IEEE-754 doubles; here they are exact reals. The rounding of the accumulated distance, of `/` and of the duration arithmetic is not modelled.
- `LocationTracking.Round2`: rounds the decimal value half up, not the binary float as `toFixed` does.
- String length is counted in characters. `password.length` counts UTF-16 code units.
- Auth (`authController.js` login/register, JWT, bcrypt), `AuthContext.js`, `api.js` and AsyncStorage are not part of this model. Their outcomes are the `failure`/`reply` parameters of the methods that call them.
- UI is left out: styling, navigation, the Leaflet WebView messages, alerts' buttons beyond the choices they offer, `console` logging.
- `ClientStreak.CalculateStreak`: the second empty-list check (`uniqueDates.length === 0`) is left out. A non-empty list always yields at least one distinct date, so that branch cannot run.
- `LocationTracking.Tracker.GetCurrentStats`: reports the wall-clock seconds of the source. It is not tied to the snapshots' active duration beyond the stated sum.
- `RideContext.RideProvider.AddRide`: the value returned on success (`res.data`) is not modelled; only the success or failure of the post is.
