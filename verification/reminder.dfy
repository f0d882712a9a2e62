/** One run of the bet-reminder job: gate on the configuration, select the
    upcoming games, find the opted-in users with missing bets, and for each
    day of those games remind the users taking part in the day's league,
    recording the day once at least one mail went out. */
module ReminderJob {
  import opened Entities
  import opened Seqs
  import opened Upcoming
  import opened MissingBets

  /** The job's settings; either may be unset. */
  datatype Config = Config(enabled: Option<bool>, hours: Option<HoursSetting>)

  /** What the job reads from storage: the game table, each stored day's
      league, the days that already have a reminder record, the accounts,
      the bet table and the league ranking table. */
  datatype Db = Db(
    games: seq<Game>,
    dayLeague: map<DayId, LeagueId>,
    reminded: set<DayId>,
    users: seq<User>,
    bets: seq<Bet>,
    ranking: seq<RankingEntry>)

  /** The return value of the mail loop: `false` for nobody, else a count. */
  datatype MailCount = NoMail | Mailed(count: nat)

  /** What the run did for one day: the users a mail was attempted for, in
      order, and the reminder record written, if any. */
  datatype DayReport = DayReport(day: DayId, recipients: seq<UserId>, record: Option<ReminderRecord>)

  datatype RunOutcome = Disabled | Ran(reports: seq<DayReport>)

  /** The job runs only when the flag is set to true; an unset flag is off. */
  predicate IsEnabled(cfg: Config) {
    cfg.enabled == Some(true)
  }

  /** The configured hours, an unset value read as an empty list. */
  function GetHoursDefined(cfg: Config): (h: HoursSetting)
    ensures cfg.hours.Some? ==> h == cfg.hours.value
    ensures cfg.hours.None? ==> IntVal(h) == 0
  {
    match cfg.hours
    case Some(h) => h
    case None => List([])
  }

  /** Identifiers of a list of accounts, in order. */
  function UserIds(users: seq<User>): (ids: seq<UserId>)
    ensures |ids| == |users|
    ensures forall k :: 0 <= k < |users| ==> ids[k] == users[k].id
  {
    if users == [] then [] else [users[0].id] + UserIds(users[1..])
  }

  /** Accounts that are active and have opted in to reminders. The query
      result is keyed by user id, so each id occurs once. */
  function GetUserWithEnabledReminder(users: seq<User>): (ids: seq<UserId>)
    ensures Distinct(ids)
    ensures forall u :: u in ids <==>
              exists x :: x in users && x.active && x.reminderEnabled && x.id == u
  {
    var opted := Filter(users, (x: User) => x.active && x.reminderEnabled);
    var all := UserIds(opted);
    assert forall x :: x in opted ==> x.id in all by {
      forall x | x in opted ensures x.id in all {
        var k :| 0 <= k < |opted| && opted[k] == x;
        assert all[k] == x.id;
      }
    }
    assert forall u :: u in all ==> exists x :: x in opted && x.id == u by {
      forall u | u in all ensures exists x :: x in opted && x.id == u {
        var k :| 0 <= k < |all| && all[k] == u;
        assert opted[k] in opted;
      }
    }
    Dedup(all)
  }

  /** The users who lack a bet among `games`; see UsersToRemindInOrder for
      order and multiplicity. */
  function GetUsersToRemind(users: seq<UserId>, games: seq<Game>, bets: seq<Bet>): (r: seq<UserId>)
    ensures forall u :: u in r <==> u in users && HasMissingBets(u, games, bets)
  {
    Filter(users, u => HasMissingBets(u, games, bets))
  }

  /** The users to remind are a sub-list of the opted-in users: nothing is
      added, nothing reordered, and a kept user keeps every occurrence. */
  lemma UsersToRemindInOrder(users: seq<UserId>, games: seq<Game>, bets: seq<Bet>)
    ensures IsSubsequence(GetUsersToRemind(users, games, bets), users)
    ensures forall u :: multiset(GetUsersToRemind(users, games, bets))[u] ==
              if HasMissingBets(u, games, bets) then multiset(users)[u] else 0
  {
    var missing := u => HasMissingBets(u, games, bets);
    assert GetUsersToRemind(users, games, bets) == Filter(users, missing);
    FilterKeepsOrder(users, missing);
    FilterMultiplicity(users, missing);
  }

  /** The candidates who take part in the day's league; see
      DayRecipientsInOrder for order and multiplicity. */
  function GetUsersToRemindOnThisDay(candidates: seq<UserId>, betters: seq<UserId>): (r: seq<UserId>)
    ensures forall u :: u in r <==> u in candidates && u in betters
  {
    Filter(candidates, u => u in betters)
  }

  /** The day's recipients are a sub-list of the candidates, in candidate
      order, each kept candidate with every occurrence. */
  lemma DayRecipientsInOrder(candidates: seq<UserId>, betters: seq<UserId>)
    ensures IsSubsequence(GetUsersToRemindOnThisDay(candidates, betters), candidates)
    ensures forall u :: multiset(GetUsersToRemindOnThisDay(candidates, betters))[u] ==
              if u in betters then multiset(candidates)[u] else 0
  {
    var participant := u => u in betters;
    assert GetUsersToRemindOnThisDay(candidates, betters) == Filter(candidates, participant);
    FilterKeepsOrder(candidates, participant);
    FilterMultiplicity(candidates, participant);
  }

  /** The `better` column of the ranking rows of `league`, in table order. */
  function RankingBetters(ranking: seq<RankingEntry>, league: LeagueId): (r: seq<UserId>)
    ensures forall u :: u in r <==> RankingEntry(league, u) in ranking
  {
    if ranking == [] then []
    else
      assert ranking == [ranking[0]] + ranking[1..];
      var rest := RankingBetters(ranking[1..], league);
      if ranking[0].league == league then [ranking[0].better] + rest else rest
  }

  /** The participants of a league, each once, keyed as the query keys them. */
  function GetBetterOnLeague(league: LeagueId, ranking: seq<RankingEntry>): (r: seq<UserId>)
    ensures Distinct(r)
    ensures forall u :: u in r <==> RankingEntry(league, u) in ranking
  {
    Dedup(RankingBetters(ranking, league))
  }

  /** The day of each game, in game order. */
  function DayIdsOf(games: seq<Game>): seq<DayId> {
    seq(|games|, k requires 0 <= k < |games| => games[k].dayId)
  }

  /** The distinct days of `games`, in the order each is first met. */
  function GetDaysFromGames(games: seq<Game>): (days: seq<DayId>)
    ensures Distinct(days)
    ensures forall d :: d in days <==> d in DayIdsOf(games)
    ensures forall g :: g in games ==> g.dayId in days
    ensures forall d :: d in days ==> exists g :: g in games && g.dayId == d
    ensures forall i, j :: 0 <= i < j < |days| ==>
              FirstIndex(DayIdsOf(games), days[i]) < FirstIndex(DayIdsOf(games), days[j])
  {
    var ds := DayIdsOf(games);
    var days := Dedup(ds);
    assert forall g :: g in games ==> g.dayId in ds by {
      forall g | g in games ensures g.dayId in ds {
        var k :| 0 <= k < |games| && games[k] == g;
        assert ds[k] == g.dayId;
      }
    }
    assert forall d :: d in ds ==> exists g :: g in games && g.dayId == d by {
      forall d | d in ds ensures exists g :: g in games && g.dayId == d {
        var k :| 0 <= k < |ds| && ds[k] == d;
        assert games[k] in games;
      }
    }
    days
  }

  /** The state of the mail loop: the users a mail was attempted for, in
      order, and the loop's counter. */
  datatype Dispatch = Dispatch(attempted: seq<UserId>, counter: nat)

  /** The mail loop run over `users` from state `acc`: each user in turn
      bumps the counter and gets one mail attempt, whatever its outcome. */
  function MailLoop(users: seq<UserId>, acc: Dispatch): (d: Dispatch)
    ensures d.attempted == acc.attempted + users
    ensures d.counter == acc.counter + |users|
  {
    if users == [] then acc
    else
      assert acc.attempted + [users[0]] + users[1..] == acc.attempted + users;
      MailLoop(users[1..], Dispatch(acc.attempted + [users[0]], acc.counter + 1))
  }

  /** What sending a day's reminders yields: the return value (`false` for
      nobody, else the loop's counter) and the users a mail was attempted
      for, in order. */
  datatype Mailing = Mailing(result: MailCount, attempted: seq<UserId>)

  /** The mails of one day. An empty list returns before the loop; otherwise
      every user gets one attempt and the counter counts attempts, not
      deliveries. */
  function SendReminder(users: seq<UserId>): (r: Mailing)
    ensures r.attempted == users
    ensures r.result == NoMail <==> users == []
    ensures r.result.Mailed? ==> r.result.count == |r.attempted| && r.result.count > 0
  {
    if |users| == 0 then Mailing(NoMail, [])
    else
      var d := MailLoop(users, Dispatch([], 0));
      Mailing(Mailed(d.counter), d.attempted)
  }

  /** The job's `$nb_mail > 0` test; `false` compares as zero. */
  predicate AnyMailed(m: MailCount) {
    m.Mailed? && m.count > 0
  }

  /** What the job promises about its work on one day: the recipients are
      exactly the candidates who take part in the day's league, each as often
      as among the candidates, and a record carrying their number is written
      iff there is at least one. */
  ghost predicate DayHandled(rep: DayReport, candidates: seq<UserId>, db: Db) {
    && rep.day in db.dayLeague
    && (forall u :: u in rep.recipients <==>
          u in candidates && RankingEntry(db.dayLeague[rep.day], u) in db.ranking)
    && (forall u :: multiset(rep.recipients)[u] ==
          if RankingEntry(db.dayLeague[rep.day], u) in db.ranking then multiset(candidates)[u] else 0)
    && (rep.record.Some? <==> |rep.recipients| > 0)
    && (rep.record.Some? ==> rep.record.value == ReminderRecord(rep.day, None, |rep.recipients|))
  }

  /** The job's work on one stored day: select the recipients, attempt the
      mails, and write the record when the attempt count is positive. */
  function HandleDay(d: DayId, candidates: seq<UserId>, db: Db): (rep: DayReport)
    requires d in db.dayLeague
    ensures rep.day == d && DayHandled(rep, candidates, db)
  {
    var betters := GetBetterOnLeague(db.dayLeague[d], db.ranking);
    var recipients := GetUsersToRemindOnThisDay(candidates, betters);
    DayRecipientsInOrder(candidates, betters);
    var sent := SendReminder(recipients);
    var record := if AnyMailed(sent.result) then Some(ReminderRecord(d, None, sent.result.count)) else None;
    DayReport(d, sent.attempted, record)
  }

  /** The per-day loop. A day that is not stored makes the job fail. */
  function RemindDays(days: seq<DayId>, candidates: seq<UserId>, db: Db): (r: Result<seq<DayReport>, Error>)
    ensures r.Failure? <==> !AllStored(days, db)
    ensures r.Success? ==> |r.value| == |days|
    ensures r.Success? ==> forall k :: 0 <= k < |days| ==>
              r.value[k].day == days[k] && DayHandled(r.value[k], candidates, db)
  {
    if days == [] then Success([])
    else if days[0] !in db.dayLeague then Failure(MissingDay(days[0]))
    else
      assert days == [days[0]] + days[1..];
      var rep := HandleDay(days[0], candidates, db);
      match RemindDays(days[1..], candidates, db)
      case Failure(e) => Failure(e)
      case Success(rest) =>
        var reps := [rep] + rest;
        assert forall k :: 0 < k < |days| ==> reps[k] == rest[k - 1] && days[k] == days[1..][k - 1];
        Success(reps)
  }

  /** Every day in `days` is stored, so its league is known. */
  predicate AllStored(days: seq<DayId>, db: Db) {
    forall d :: d in days ==> d in db.dayLeague
  }

  /** The games the run is about under this configuration and clock. */
  function RunGames(cfg: Config, db: Db, now: int): Result<seq<Game>, Error> {
    GetUpcomming(GetHoursDefined(cfg), now, db.games, db.reminded)
  }

  /** The users the run considers for every day. */
  function RunCandidates(db: Db, games: seq<Game>): seq<UserId> {
    GetUsersToRemind(GetUserWithEnabledReminder(db.users), games, db.bets)
  }

  /** One run of the job. */
  function Init(cfg: Config, db: Db, now: int): (r: Result<RunOutcome, Error>)
    ensures !IsEnabled(cfg) <==> r == Success(Disabled)
    ensures r.Success? && r.value.Ran? ==>
              forall i, j :: 0 <= i < j < |r.value.reports| ==> r.value.reports[i].day != r.value.reports[j].day
    ensures r.Success? && r.value.Ran? ==>
              forall rep :: rep in r.value.reports ==>
                rep.day !in db.reminded && (rep.record.Some? ==> rep.record.value.emailsSended > 0)
  {
    if !IsEnabled(cfg) then Success(Disabled)
    else
      match RunGames(cfg, db, now)
      case Failure(e) => Failure(e)
      case Success(games) =>
        var candidates := RunCandidates(db, games);
        if |candidates| > 0 then
          var days := GetDaysFromGames(games);
          match RemindDays(days, candidates, db)
          case Failure(e) => Failure(e)
          case Success(reports) =>
            ReportsAreFresh(games, db.reminded, candidates, db, reports);
            Success(Ran(reports))
        else Success(Ran([]))
  }

  /** The reports of a run over `games` name each day once, never a day that
      already has a record, and carry only records with a positive count. */
  lemma ReportsAreFresh(games: seq<Game>, reminded: set<DayId>, candidates: seq<UserId>, db: Db, reports: seq<DayReport>)
    requires forall g :: g in games ==> g.dayId !in reminded
    requires RemindDays(GetDaysFromGames(games), candidates, db) == Success(reports)
    ensures forall i, j :: 0 <= i < j < |reports| ==> reports[i].day != reports[j].day
    ensures forall rep :: rep in reports ==>
              rep.day !in reminded && (rep.record.Some? ==> rep.record.value.emailsSended > 0)
  {
    var days := GetDaysFromGames(games);
    forall rep | rep in reports
      ensures rep.day !in reminded && (rep.record.Some? ==> rep.record.value.emailsSended > 0)
    {
      var k :| 0 <= k < |reports| && reports[k] == rep;
      assert rep.day == days[k] && DayHandled(rep, candidates, db);
      assert days[k] in days;
    }
  }
}
