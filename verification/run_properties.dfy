/** Properties of a whole run of the reminder job, stated over its inputs. */
module RunProperties {
  import opened Entities
  import opened Seqs
  import opened Upcoming
  import opened MissingBets
  import opened ReminderJob

  /** An account that is active and opted in to reminders. */
  ghost predicate OptedIn(db: Db, u: UserId) {
    exists x :: x in db.users && x.active && x.reminderEnabled && x.id == u
  }

  /** Days for which a run wrote a reminder record. */
  function RecordedDays(reports: seq<DayReport>): set<DayId> {
    set rep | rep in reports && rep.record.Some? :: rep.day
  }

  /** The mails of one day go to exactly the opted-in users whose bet rows on
      the upcoming games of the run are fewer than those games and who take
      part in the day's league, each as often as among the opted-in users,
      that is once; the record for the
      day exists iff someone was mailed, carries the number of attempts and
      leaves the hour empty. */
  lemma {:induction false} RunRecipientsExact(cfg: Config, db: Db, now: int, reports: seq<DayReport>, k: nat)
    requires Init(cfg, db, now) == Success(Ran(reports))
    requires k < |reports|
    ensures RunGames(cfg, db, now).Success?
    ensures reports[k].day in db.dayLeague
    ensures forall u :: u in reports[k].recipients <==>
              && OptedIn(db, u)
              && HasMissingBets(u, RunGames(cfg, db, now).value, db.bets)
              && RankingEntry(db.dayLeague[reports[k].day], u) in db.ranking
    ensures forall u :: multiset(reports[k].recipients)[u] ==
              if HasMissingBets(u, RunGames(cfg, db, now).value, db.bets)
                 && RankingEntry(db.dayLeague[reports[k].day], u) in db.ranking
              then multiset(GetUserWithEnabledReminder(db.users))[u] else 0
    ensures Distinct(reports[k].recipients)
    ensures reports[k].record.Some? <==> |reports[k].recipients| > 0
    ensures reports[k].record.Some? ==>
              reports[k].record.value == ReminderRecord(reports[k].day, None, |reports[k].recipients|)
  {
    var games := RunGames(cfg, db, now).value;
    var candidates := RunCandidates(db, games);
    var days := GetDaysFromGames(games);
    assert |candidates| > 0;
    assert RemindDays(days, candidates, db) == Success(reports);
    var rep := reports[k];
    assert DayHandled(rep, candidates, db);
    forall u
      ensures u in rep.recipients <==>
                OptedIn(db, u) && HasMissingBets(u, games, db.bets)
                && RankingEntry(db.dayLeague[rep.day], u) in db.ranking
    {
      assert u in candidates <==> u in GetUserWithEnabledReminder(db.users) && HasMissingBets(u, games, db.bets);
    }
    RecipientCopies(rep, GetUserWithEnabledReminder(db.users), games, db);
  }

  /** The game table is keyed by game id, and a run selects at most the
      table's copy of each game, so its games have unique ids too. */
  lemma RunGamesDistinctIds(cfg: Config, db: Db, now: int)
    ensures DistinctIds(db.games) && RunGames(cfg, db, now).Success? ==> DistinctIds(RunGames(cfg, db, now).value)
  {
    if DistinctIds(db.games) && RunGames(cfg, db, now).Success? {
      DistinctIdsByMultiset(RunGames(cfg, db, now).value, db.games);
    }
  }

  /** Over a game table keyed by id, a day's recipient lacks a bet on some
      upcoming game of the run, so a user who has bet on every upcoming game
      is mailed on no day. When the bet table also holds each (user, game)
      row once, the recipients are exactly the opted-in league members who
      lack a bet on some upcoming game. */
  lemma RecipientLacksSomeBet(cfg: Config, db: Db, now: int, reports: seq<DayReport>, k: nat, u: UserId)
    requires Init(cfg, db, now) == Success(Ran(reports))
    requires k < |reports|
    requires DistinctIds(db.games)
    ensures RunGames(cfg, db, now).Success? && reports[k].day in db.dayLeague
    ensures u in reports[k].recipients ==>
              exists g :: g in RunGames(cfg, db, now).value && Bet(u, g.id) !in db.bets
    ensures Distinct(db.bets) ==>
              (u in reports[k].recipients <==>
                 && OptedIn(db, u)
                 && (exists g :: g in RunGames(cfg, db, now).value && Bet(u, g.id) !in db.bets)
                 && RankingEntry(db.dayLeague[reports[k].day], u) in db.ranking)
  {
    RunRecipientsExact(cfg, db, now, reports, k);
    RunGamesDistinctIds(cfg, db, now);
    var games := RunGames(cfg, db, now).value;
    var league := db.dayLeague[reports[k].day];
    assert u in reports[k].recipients <==>
             OptedIn(db, u) && HasMissingBets(u, games, db.bets) && RankingEntry(league, u) in db.ranking;
    MissingMeansUnbet(u, games, db.bets);
  }

  /** Over games with unique ids, a missing bet count means some game is
      unbet, and the two coincide when bet rows are unique as well. */
  lemma MissingMeansUnbet(u: UserId, games: seq<Game>, bets: seq<Bet>)
    requires DistinctIds(games)
    ensures HasMissingBets(u, games, bets) ==> exists g :: g in games && Bet(u, g.id) !in bets
    ensures Distinct(bets) ==> (HasMissingBets(u, games, bets) <==> exists g :: g in games && Bet(u, g.id) !in bets)
  {
    if forall g :: g in games ==> Bet(u, g.id) in bets {
      AllPlacedNoReminder(u, games, bets);
    }
    if Distinct(bets) {
      MissingBetsIffSomeGameUnbet(u, games, bets);
    }
  }

  /** A day handled for the users to remind among `ids` mails each of them as
      often as they occur in `ids`, hence once when `ids` has no repeats. */
  lemma RecipientCopies(rep: DayReport, ids: seq<UserId>, games: seq<Game>, db: Db)
    requires DayHandled(rep, GetUsersToRemind(ids, games, db.bets), db)
    requires Distinct(ids)
    ensures forall u :: multiset(rep.recipients)[u] ==
              if HasMissingBets(u, games, db.bets) && RankingEntry(db.dayLeague[rep.day], u) in db.ranking
              then multiset(ids)[u] else 0
    ensures Distinct(rep.recipients)
  {
    var candidates := GetUsersToRemind(ids, games, db.bets);
    UsersToRemindInOrder(ids, games, db.bets);
    forall u ensures multiset(rep.recipients)[u] <= multiset(ids)[u] {
      assert multiset(rep.recipients)[u] <= multiset(candidates)[u];
      assert multiset(candidates)[u] <= multiset(ids)[u];
    }
    FewerCopiesDistinct(rep.recipients, ids);
  }

  /** When anybody is to be reminded, the run visits every day of the
      upcoming games, once each, in the order the days first appear; when
      nobody is, it visits none. */
  lemma {:induction false} RunVisitsEveryDay(cfg: Config, db: Db, now: int, reports: seq<DayReport>)
    requires Init(cfg, db, now) == Success(Ran(reports))
    ensures RunGames(cfg, db, now).Success?
    ensures var games := RunGames(cfg, db, now).value;
            && (|RunCandidates(db, games)| == 0 ==> reports == [])
            && (|RunCandidates(db, games)| > 0 ==> ReportsFollowDays(games, reports))
  {
    var games := RunGames(cfg, db, now).value;
    var candidates := RunCandidates(db, games);
    if |candidates| > 0 {
      DaysVisitedInOrder(games, candidates, db, reports);
    }
  }

  /** Every game's day has a report, every report is about a day of the
      games, and reports come in the order their days are first met among the
      games. */
  ghost predicate ReportsFollowDays(games: seq<Game>, reports: seq<DayReport>) {
    && (forall g :: g in games ==> exists rep :: rep in reports && rep.day == g.dayId)
    && (forall rep :: rep in reports ==> rep.day in DayIdsOf(games))
    && (forall i, j :: 0 <= i < j < |reports| ==>
          && reports[i].day in DayIdsOf(games)
          && reports[j].day in DayIdsOf(games)
          && FirstIndex(DayIdsOf(games), reports[i].day) < FirstIndex(DayIdsOf(games), reports[j].day))
  }

  lemma DaysVisitedInOrder(games: seq<Game>, candidates: seq<UserId>, db: Db, reports: seq<DayReport>)
    requires RemindDays(GetDaysFromGames(games), candidates, db) == Success(reports)
    ensures ReportsFollowDays(games, reports)
  {
    var days := GetDaysFromGames(games);
    forall g | g in games ensures exists rep :: rep in reports && rep.day == g.dayId {
      var k :| 0 <= k < |days| && days[k] == g.dayId;
      assert reports[k] in reports;
    }
  }

  /** Write-once dedup: once a run has recorded a day, a later run over the
      updated records sends nothing and records nothing for that day,
      whatever the clock, settings or other tables say by then. */
  lemma RerunSkipsRecordedDays(
    cfg: Config, db: Db, now: int, reports: seq<DayReport>,
    cfg': Config, db': Db, now': int, reports': seq<DayReport>)
    requires Init(cfg, db, now) == Success(Ran(reports))
    requires RecordedDays(reports) <= db'.reminded
    requires Init(cfg', db', now') == Success(Ran(reports'))
    ensures forall rep :: rep in reports' ==> rep.day !in RecordedDays(reports)
  {
  }

  /** With nobody opted in, an enabled run attempts no mail and writes no
      record; it can only fail on the hour setting, before any day is
      handled. */
  lemma NobodyOptedInNoMail(cfg: Config, db: Db, now: int)
    requires IsEnabled(cfg)
    requires forall x :: x in db.users ==> !(x.active && x.reminderEnabled)
    ensures RunGames(cfg, db, now).Success? ==> Init(cfg, db, now) == Success(Ran([]))
    ensures Init(cfg, db, now).Failure? ==> Init(cfg, db, now).error.BadInterval?
  {
    match RunGames(cfg, db, now)
    case Failure(_) =>
    case Success(games) =>
      var ids := GetUserWithEnabledReminder(db.users);
      var missing := u => HasMissingBets(u, games, db.bets);
      FilterNone(ids, missing);
      assert RunCandidates(db, games) == Filter(ids, missing);
  }

  /** A list of thresholds is not iterated: the whole list goes through the
      integer conversion, so any non-empty list selects exactly what the
      setting 1, a one-hour window, selects, and an
      unset or empty list a window with no room at all. */
  lemma ThresholdListGivesOneHour(cfg: Config, db: Db, now: int)
    requires cfg.hours.None? || cfg.hours.value.List?
    ensures RunGames(cfg, db, now).Success?
    ensures cfg.hours.Some? && cfg.hours.value.items != [] ==>
              forall g :: g in RunGames(cfg, db, now).value ==> now < g.kickoff <= now + SecondsPerHour
    ensures cfg.hours.None? || cfg.hours.value.items == [] ==> RunGames(cfg, db, now).value == []
    ensures cfg.hours.Some? && cfg.hours.value.items != [] ==>
              RunGames(cfg, db, now) == GetUpcomming(Scalar(1), now, db.games, db.reminded)
  {
    var h := GetHoursDefined(cfg);
    if cfg.hours.None? || cfg.hours.value.items == [] {
      ZeroWindowEmpty(h, now, db.games, db.reminded);
    } else {
      assert IntVal(h) == 1;
    }
  }
}
