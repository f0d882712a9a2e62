# Bet reminder job — a Dafny model

The `mespronos` betting module runs a periodic job, `ReminderController::init`,
that emails users who have not yet bet on games kicking off soon. The job:

1. does nothing unless the `enabled` setting is true;
2. reads the `hours` look-ahead setting (unset is read as an empty list);
3. selects the games kicking off in `(now, now + hours]` that are not yet
   fully scored, sorted by kickoff and then id;
4. drops every game whose match day already has a reminder record;
5. keeps the active, opted-in users whose bet count on those games is below
   the number of games;
6. for each distinct day of the games, in first-seen order, mails the kept
   users who take part in the day's league;
7. writes a reminder record for the day when at least one mail was attempted.

The model is purely functional. The database tables, the configuration and
the clock are explicit inputs: the `Db` and `Config` datatypes and a `now`
timestamp in seconds. A run is the function `ReminderJob.Init`. It returns
`Disabled`, the per-day reports (recipients and the record written), or the
error that aborts the run.

Modules:

- `Entities`: the records the job reads and writes.
- `Seqs`: order-preserving filtering, first-occurrence de-duplication and the
  sub-sequence relation.
- `Upcoming`: the game window, the kickoff sort and the already-reminded sweep.
- `MissingBets`: the bet-count test.
- `ReminderJob`: the user and league selection, the mail count, the per-day
  loop and the run itself.
- `RunProperties`: properties of whole runs.
- `Scenarios`: small concrete runs.

Behaviour of the PHP code that carries over:

- `intval` of the `hours` setting. A number is kept as it is. An array becomes
  1 when non-empty and 0 when empty. So a list of thresholds such as `[24, 2]`
  gives a one-hour window, not one pass per threshold. The reminder record
  has an `hour` field labelled "Reminder hour before"
  (src/Entity/Reminder.php:71-83), which would suit per-threshold reminders,
  but the job never sets it.
- `loadMultiple` returns the selected games keyed by id. Over a table keyed by id, a run's games have unique ids (`RunGamesDistinctIds`), so a user who has bet on every upcoming game is never mailed (`RecipientLacksSomeBet`).
- A negative hour count builds an invalid `DateInterval`, which throws. The
  model returns `Failure(BadInterval)`.
- A game whose day is not stored makes `getDaysFromGames` yield null. The call
  `$day->getLeagueID()` on that null then fails. The model returns
  `Failure(MissingDay)`.
- The already-reminded sweep only caches positive lookups. A day without a
  record is looked up again for each of its games; `Sweep.lookups` records
  every lookup.
- `sendReminder` counts attempted mails, not deliveries. It returns `false`
  for nobody (`MailCount.NoMail`).
- The reminder record leaves `hour` empty and stores the attempt count.
- The run never re-checks bets per day. A user is a candidate when they lack a
  bet on any upcoming game, and is then mailed for every upcoming day of a
  league they take part in.
- The user query returns an array keyed by uid, so each opted-in user occurs
  once, however many account rows share the id (`GetUserWithEnabledReminder`).
- `fetchAllKeyed(0, 0)` keys the league's participants by user. Each
  participant appears once, in first-seen order (`GetBetterOnLeague`).

## Model

| member | source | states |
|---|---|---|
| ReminderJob.IsEnabled | src/Controller/ReminderController.php:60-63 | The job is on only when the stored flag is true; an unset or false flag is off. The definition, with no contract of its own; `Init`'s first ensures states its effect. |
| Upcoming.IntVal | src/Controller/ReminderController.php:144 | PHP's `intval` of the setting: a number is kept, and a list converts to 1 when non-empty and 0 when empty. The definition, with no contract of its own. Its effect is stated by `GetUpcomming` (failure exactly when it is negative, and the window it sets) and by `ThresholdListGivesOneHour`. |
| ReminderJob.Init | src/Controller/ReminderController.php:25-58 | A run is `Disabled` exactly when the `enabled` flag is not true. Otherwise no day is reported twice, no reported day already had a record, and every written record carries a positive count. |
| ReminderJob.GetHoursDefined | src/Controller/ReminderController.php:65-69 | A set `hours` value is passed on unchanged. An unset one becomes a setting whose integer conversion is 0. |
| Upcoming.GetUpcomming | src/Controller/ReminderController.php:142-174 | Fails exactly when the converted hour count is negative. Otherwise it returns the unplayed games in `(now, now + hours*3600]` whose day has no record, sorted by kickoff then id, each game as often as in the table. |
| Upcoming.SortByKickoff | src/Controller/ReminderController.php:157-158 | The result is a permutation of the input, ordered by kickoff and then by id. |
| Upcoming.ZeroWindowEmpty | src/Controller/ReminderController.php:143-151 | A zero-hour window selects no game, whatever the game table holds. |
| Upcoming.CheckIfReminderAlreadySended | src/Controller/ReminderController.php:176-187 | Exactly the games of recorded days are removed, the others keeping every copy. A day without a record is looked up once per game. A recorded day is looked up once, or not at all when it was already cached. |
| Upcoming.AlreadySendedKeepsOrder | src/Controller/ReminderController.php:178-186 | The surviving games keep their relative order. |
| ReminderJob.GetUserWithEnabledReminder | src/Controller/ReminderController.php:189-195 | A user id is returned exactly when some account with that id is active and has reminders enabled. Each id is returned once, as the uid-keyed query result holds it. |
| ReminderJob.GetUsersToRemind | src/Controller/ReminderController.php:197-205 | A user is kept exactly when they are in the input and have missing bets. |
| ReminderJob.UsersToRemindInOrder | src/Controller/ReminderController.php:198-204 | The kept users form a sub-sequence of the input: nothing is added, nothing reordered, and every copy of a kept user stays. |
| ReminderJob.GetUsersToRemindOnThisDay | src/Controller/ReminderController.php:207-215 | A user is kept exactly when they are both a candidate and a participant of the league. |
| ReminderJob.DayRecipientsInOrder | src/Controller/ReminderController.php:208-214 | The day's recipients are a sub-sequence of the candidates, in candidate order, with every copy of a kept candidate. |
| MissingBets.HasMissingBets | src/Controller/ReminderController.php:221-233 | The test itself: false with no games, else the user's counted bet rows fall short of the number of games. The definition, with no contract of its own; its properties are the lemmas below. |
| MissingBets.CountBets | src/Controller/ReminderController.php:226-230 | The `count(b.id)` query: never more than the number of bet rows, and 0 for an empty set of games. |
| MissingBets.CountBetsPerGame | src/Controller/ReminderController.php:226-230 | For a single game, the count is the number of copies of the user's bet row on it. |
| MissingBets.CountSplit | src/Controller/ReminderController.php:226-230 | Counts over disjoint sets of games add up. With CountBetsPerGame this fixes the count for any set of games. |
| MissingBets.NoGamesNoReminder | src/Controller/ReminderController.php:222 | With no upcoming games nobody has missing bets, whatever the bet table holds. |
| MissingBets.MissingBetsIffSomeGameUnbet | src/Controller/ReminderController.php:221-233 | With unique game ids and unique bet rows, a user has missing bets exactly when some upcoming game has no bet of theirs. |
| MissingBets.AllPlacedNoReminder | src/Controller/ReminderController.php:223-232 | A user with a bet on every upcoming game is never reminded, even when the bet table holds extra or duplicate rows. |
| ReminderJob.GetDaysFromGames | src/Controller/ReminderController.php:235-244 | Each game's day occurs exactly once, and no other day occurs. Days appear in the order of their first game. |
| ReminderJob.GetBetterOnLeague | src/Controller/ReminderController.php:246-253 | Each user with a ranking row in the league occurs exactly once, and no other user occurs. |
| ReminderJob.MailLoop | src/Controller/ReminderController.php:76-93 | Every user gets exactly one mail attempt, in list order, and the counter rises by one per attempt. |
| ReminderJob.SendReminder | src/Controller/ReminderController.php:71-95 | Exactly the listed users get an attempt, in order. The result is `false` exactly when the list is empty; otherwise it is the loop's counter, which equals the number of attempts and is positive. |
| ReminderJob.HandleDay | src/Controller/ReminderController.php:39-54 | The reported recipients are the users the mail loop attempted: exactly the candidates in the day's league, each as often as among the candidates. A record exists exactly when there is a recipient, and it holds the day, no hour, and the recipient count. |
| ReminderJob.RemindDays | src/Controller/ReminderController.php:36-55 | Fails exactly when some day is not stored. Otherwise it yields one report per day, in day order, each handled as above. |
| RunProperties.RunRecipientsExact | src/Controller/ReminderController.php:29-47 | In a run, a day's recipients are exactly the opted-in users whose bet rows on the upcoming games are fewer than those games and who take part in the day's league, each once, so the recorded count is the number of such users. The day's record exists exactly when there is a recipient and carries their number. |
| RunProperties.RunGamesDistinctIds | src/Controller/ReminderController.php:160-162 | Over a game table keyed by id, the games a run selects have unique ids, as the id-keyed `loadMultiple` result does. |
| RunProperties.RecipientLacksSomeBet | src/Controller/ReminderController.php:29-47 | Over a game table keyed by id, every recipient of a day lacks a bet on some upcoming game, so a user who has bet on every upcoming game is mailed on no day. With unique bet rows too, the recipients are exactly the opted-in league members who lack a bet on some upcoming game. |
| RunProperties.RunVisitsEveryDay | src/Controller/ReminderController.php:34-37 | With at least one candidate, a run reports every day of the upcoming games, once each, in first-seen order. With none, it reports nothing. |
| RunProperties.RerunSkipsRecordedDays | src/Controller/ReminderController.php:41-47 | A later run that sees the records written by an earlier run never reports those days again. |
| RunProperties.NobodyOptedInNoMail | src/Controller/ReminderController.php:32-35 | When no account is active and opted in, a run whose game selection succeeds reports no day, so it attempts no mail and writes no record. The only possible failure is the invalid hour interval, which comes before any day is handled. |
| RunProperties.ThresholdListGivesOneHour | src/Controller/ReminderController.php:142-144 | A list-valued or unset `hours` setting never fails. A non-empty list selects exactly what the setting 1 selects, a one-hour window; an empty or unset one selects nothing. |
| Scenarios.ThreeOfFiveReminded | src/Controller/ReminderController.php:25-58 | Five opted-in users with no bets, one upcoming game, and three of the users in its league: three mails are counted and the day is recorded with 3. |
| Scenarios.OnlyNearGameUpcoming | src/Controller/ReminderController.php:150-151 | Of two games of one day, 3 and 30 hours ahead, a 24-hour window selects only the first. |
| Scenarios.FullyScoredGameExcluded | src/Controller/ReminderController.php:153-155 | A game one hour ahead with both scores set is not selected by a 24-hour window. The general fact is the `Unplayed` clause of `GetUpcomming`. |
| Scenarios.BetOnOnlyUpcomingGame | src/Controller/ReminderController.php:221-233 | A bet on the only upcoming game means no reminder. With a second upcoming game left unbet, the user is reminded. |
| Scenarios.UnrecordedDayLookedUpPerGame | src/Controller/ReminderController.php:180-182 | Two games of a day without a record are both kept, and the day is looked up twice. |
| Scenarios.LookupsOfRecordedDay | src/Controller/ReminderController.php:180-184 | Two games of a recorded day are both dropped, and the day is looked up once. |
| Scenarios.ThresholdListMissesTwoHourGame | src/Controller/ReminderController.php:144 | The setting `[24, 2]` does not remind about a game two hours ahead. |

## Left out

- Mail content is not modelled: `getReminderEmailVariables`, `getReminderEmailRendered`, URL building, the Europe/Paris time zone and the date formatter (lines 97-135). This includes the team-2 logo that line 123 takes from team 1. All of this needs the CMS renderer and routing services.
- The mail manager call, the logger, the subject translation and `User::load` (lines 48-53, 79-92) are foreign services. Only the attempt count is kept.
- Database and entity queries are given as input tables, and their row order is taken as given. This covers `entityQuery`, `Database::getConnection`, `Reminder::loadForDay` and `Day` loading. The model does not order the user query, which has no sort.
- Configuration is read into `Config`. `enabled` counts as on only when it is boolean true. PHP's loose `== true` on other truthy values (`1`, `"yes"`) is not modelled.
- `hours` is a number or a list of numbers. `intval` of strings, floats and other values is not modelled.
- The clock is read twice in `getUpcomming`; the model reads it once as `now`. The window bounds are compared as integer seconds, not as formatted UTC date strings. Both give the same order for the job's ISO timestamps.
- src/Entity/Reminder.php defines no `loadForDay`. The model assumes it finds a record exactly when one is stored for the day, including records from earlier runs; the `reminded` set of `Db` is that table. RerunSkipsRecordedDays rests on this assumption.
- Two crash paths are not modelled. A stored day whose league cannot be loaded makes `$league->label()` fail (line 111, reached from line 83). A user id that `User::load` cannot load makes the mail code fail (lines 79, 83, 92). The model takes every day's league and every user as loadable.
- The `League` and `Reminder` entity definitions (field schema, getters, the status-label lookup) are not part of this model. They hold no decision logic.
- The game table is taken as keyed by game id, as its primary key makes it; `RunGamesDistinctIds` and `RecipientLacksSomeBet` rest on that. A table given with two rows of one id yields both, where `loadMultiple` would yield one.
- Overlapping runs of the job (races on the reminder records) are not modelled; the model is sequential.
- ReminderJob.RemindDays: when a later day is not stored, the model returns only the failure. The source has by then already mailed and recorded the earlier days; those partial effects are not reported.
- MissingBets.MissingBetsIffSomeGameUnbet: holds only under the uniqueness of game ids and of (user, game) bet rows. Without them, duplicate bet rows can make the count reach the number of games while a game is still unbet. `HasMissingBets` itself models the raw count.
