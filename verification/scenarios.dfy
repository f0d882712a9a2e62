/** Concrete runs of the reminder job on small tables. */
module Scenarios {
  import opened Entities
  import opened Seqs
  import opened Upcoming
  import opened MissingBets
  import opened ReminderJob

  const Now: int := 1_700_000_000
  const Hour: int := SecondsPerHour

  /** Of two unplayed games of one day, 3 and 30 hours ahead, only the first
      is upcoming for a 24-hour window. */
  lemma OnlyNearGameUpcoming()
    ensures GetUpcomming(Scalar(24), Now,
              [Game(2, 10, Now + 30 * Hour, None, None), Game(1, 10, Now + 3 * Hour, None, None)], {})
            == Success([Game(1, 10, Now + 3 * Hour, None, None)])
  {
    var g1 := Game(1, 10, Now + 3 * Hour, None, None);
    var g2 := Game(2, 10, Now + 30 * Hour, None, None);
    var p := (g: Game) => InWindow(g, Now, 24) && Unplayed(g);
    assert [g2, g1][1..] == [g1];
    assert [g1][1..] == [];
    assert Filter([g2, g1], p) == [g1];
    assert SortByKickoff([g1]) == [g1];
    assert CheckIfReminderAlreadySended([g1], {}, {}).kept == [g1];
  }

  /** A game one hour ahead with both scores already set is not upcoming. */
  lemma FullyScoredGameExcluded()
    ensures GetUpcomming(Scalar(24), Now, [Game(1, 10, Now + Hour, Some(2), Some(1))], {}) == Success([])
  {
  }

  /** A bet on the only upcoming game means no reminder, even though the
      user has not bet on a later game of the same day. */
  lemma BetOnOnlyUpcomingGame()
    ensures !HasMissingBets(7, [Game(1, 10, Now + 3 * Hour, None, None)], [Bet(7, 1)])
    ensures HasMissingBets(7, [Game(1, 10, Now + 3 * Hour, None, None), Game(2, 10, Now + 30 * Hour, None, None)], [Bet(7, 1)])
  {
    assert GameIds([Game(1, 10, Now + 3 * Hour, None, None)]) == {1};
    assert GameIds([Game(1, 10, Now + 3 * Hour, None, None), Game(2, 10, Now + 30 * Hour, None, None)]) == {1, 2};
  }

  /** A day without a reminder record is looked up again for each of its
      games, and its games are kept. */
  lemma UnrecordedDayLookedUpPerGame()
    ensures CheckIfReminderAlreadySended([Game(1, 10, Now, None, None), Game(2, 10, Now, None, None)], {20}, {})
            == Sweep([Game(1, 10, Now, None, None), Game(2, 10, Now, None, None)], [10, 10])
  {
    assert [Game(1, 10, Now, None, None), Game(2, 10, Now, None, None)][1..] == [Game(2, 10, Now, None, None)];
    assert [Game(2, 10, Now, None, None)][1..] == [];
    assert CheckIfReminderAlreadySended([Game(2, 10, Now, None, None)], {20}, {})
        == Sweep([Game(2, 10, Now, None, None)], [10]);
    assert [Game(1, 10, Now, None, None)] + [Game(2, 10, Now, None, None)]
        == [Game(1, 10, Now, None, None), Game(2, 10, Now, None, None)];
  }

  /** A day with a reminder record is looked up for its first game only, and
      none of its games is kept. */
  lemma LookupsOfRecordedDay()
    ensures CheckIfReminderAlreadySended([Game(3, 20, Now, None, None), Game(4, 20, Now, None, None)], {20}, {})
            == Sweep([], [20])
  {
    assert [Game(3, 20, Now, None, None), Game(4, 20, Now, None, None)][1..] == [Game(4, 20, Now, None, None)];
    assert {} + {20} == {20};
    LookupSkippedWhenCached();
  }

  lemma LookupSkippedWhenCached()
    ensures CheckIfReminderAlreadySended([Game(4, 20, Now, None, None)], {20}, {20}) == Sweep([], [])
  {
    assert [Game(4, 20, Now, None, None)][1..] == [];
  }

  /** A configured list of thresholds 24 and 2 yields a one-hour window: a
      game two hours ahead is not reminded about. */
  lemma ThresholdListMissesTwoHourGame()
    ensures GetUpcomming(List([24, 2]), Now, [Game(1, 10, Now + 2 * Hour, None, None)], {}) == Success([])
  {
  }

  /** Five opted-in users without bets and one upcoming game, on day 10 of
      league 7; only users 1 to 3 take part in league 7. */
  const ScenarioGame := Game(1, 10, Now + Hour, None, None)
  const ScenarioConfig := Config(Some(true), Some(Scalar(24)))
  const ScenarioUsers := [User(1, true, true), User(2, true, true), User(3, true, true),
                          User(4, true, true), User(5, true, true)]
  const ScenarioRanking := [RankingEntry(7, 1), RankingEntry(7, 2), RankingEntry(7, 3),
                            RankingEntry(8, 4), RankingEntry(8, 5)]
  const ScenarioDb := Db([ScenarioGame], map[10 := 7], {}, ScenarioUsers, [], ScenarioRanking)

  lemma ScenarioGames()
    ensures RunGames(ScenarioConfig, ScenarioDb, Now) == Success([ScenarioGame])
  {
    var g := ScenarioGame;
    assert [g][1..] == [];
    var p := (x: Game) => InWindow(x, Now, 24) && Unplayed(x);
    assert Filter([g], p) == [g];
    assert SortByKickoff([g]) == [g];
    assert CheckIfReminderAlreadySended([g], {}, {}).kept == [g];
  }

  lemma AllScenarioUsersOptedIn()
    ensures Filter(ScenarioUsers, (x: User) => x.active && x.reminderEnabled) == ScenarioUsers
  {
  }

  lemma ScenarioUserIds()
    ensures UserIds(ScenarioUsers) == [1, 2, 3, 4, 5]
  {
  }

  lemma ScenarioIdsDistinct()
    ensures Dedup([1, 2, 3, 4, 5]) == [1, 2, 3, 4, 5]
  {
    DedupFromDistinct([1, 2, 3, 4, 5], {});
  }

  lemma ScenarioOptedIn()
    ensures GetUserWithEnabledReminder(ScenarioUsers) == [1, 2, 3, 4, 5]
  {
    AllScenarioUsersOptedIn();
    ScenarioUserIds();
    ScenarioIdsDistinct();
  }

  lemma NobodyHasBet()
    ensures Filter([1, 2, 3, 4, 5], (u: UserId) => HasMissingBets(u, [ScenarioGame], [])) == [1, 2, 3, 4, 5]
  {
  }

  lemma ScenarioCandidates()
    ensures RunCandidates(ScenarioDb, [ScenarioGame]) == [1, 2, 3, 4, 5]
  {
    ScenarioOptedIn();
    NobodyHasBet();
  }

  lemma LeagueSevenRows()
    ensures RankingBetters(ScenarioRanking, 7) == [1, 2, 3]
  {
  }

  lemma LeagueSevenDistinct()
    ensures Dedup([1, 2, 3]) == [1, 2, 3]
  {
    DedupFromDistinct([1, 2, 3], {});
  }

  lemma ScenarioBetters()
    ensures GetBetterOnLeague(7, ScenarioRanking) == [1, 2, 3]
  {
    LeagueSevenRows();
    LeagueSevenDistinct();
  }

  lemma LeagueSevenCandidates()
    ensures Filter([1, 2, 3, 4, 5], (u: UserId) => u in [1, 2, 3]) == [1, 2, 3]
  {
  }

  lemma ScenarioDay()
    ensures HandleDay(10, [1, 2, 3, 4, 5], ScenarioDb) == DayReport(10, [1, 2, 3], Some(ReminderRecord(10, None, 3)))
  {
    ScenarioBetters();
    LeagueSevenCandidates();
  }

  lemma ScenarioDays()
    ensures GetDaysFromGames([ScenarioGame]) == [10]
  {
    assert DayIdsOf([ScenarioGame]) == [10];
    assert [10][1..] == [];
    assert DedupFrom([10], {}) == [10];
  }

  /** The per-day loop over a single stored day handles just that day. */
  lemma OneDayLoop(d: DayId, candidates: seq<UserId>, db: Db)
    requires d in db.dayLeague
    ensures RemindDays([d], candidates, db) == Success([HandleDay(d, candidates, db)])
  {
    assert [d][1..] == [];
    assert RemindDays([], candidates, db) == Success([]);
    assert [HandleDay(d, candidates, db)] + [] == [HandleDay(d, candidates, db)];
  }

  lemma ScenarioDayLoop()
    ensures RemindDays([10], [1, 2, 3, 4, 5], ScenarioDb)
            == Success([DayReport(10, [1, 2, 3], Some(ReminderRecord(10, None, 3)))])
  {
    OneDayLoop(10, [1, 2, 3, 4, 5], ScenarioDb);
    ScenarioDay();
  }

  /** Three mails are attempted and the day is recorded with that count. */
  lemma ThreeOfFiveReminded()
    ensures Init(ScenarioConfig, ScenarioDb, Now)
            == Success(Ran([DayReport(10, [1, 2, 3], Some(ReminderRecord(10, None, 3)))]))
  {
    ScenarioGames();
    ScenarioCandidates();
    ScenarioDays();
    ScenarioDayLoop();
  }
}
