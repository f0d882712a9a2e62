/** Selection of the games a reminder run is about: games kicking off within
    the look-ahead window that are not yet played, in kickoff order, minus
    those whose day has already been reminded. */
module Upcoming {
  import opened Entities
  import opened Seqs

  const SecondsPerHour: int := 3600

  /** The configured look-ahead value as stored: a single number or a list. */
  datatype HoursSetting = Scalar(n: int) | List(items: seq<int>)

  /** PHP's integer conversion of the setting: a number is kept, an array
      becomes 1 when non-empty and 0 when empty. */
  function IntVal(h: HoursSetting): int {
    match h
    case Scalar(n) => n
    case List(items) => if items == [] then 0 else 1
  }

  /** Kickoff strictly after `now` and at most `hours` hours later. */
  predicate InWindow(g: Game, now: int, hours: int) {
    now < g.kickoff <= now + hours * SecondsPerHour
  }

  /** At least one score is still unset. */
  predicate Unplayed(g: Game) {
    g.score1.None? || g.score2.None?
  }

  /** The query's sort key: kickoff ascending, then identifier ascending. */
  predicate KickoffOrder(a: Game, b: Game) {
    a.kickoff < b.kickoff || (a.kickoff == b.kickoff && a.id <= b.id)
  }

  predicate SortedByKickoff(s: seq<Game>) {
    forall i, j :: 0 <= i < j < |s| ==> KickoffOrder(s[i], s[j])
  }

  function Insert(g: Game, s: seq<Game>): (r: seq<Game>)
    requires SortedByKickoff(s)
    ensures SortedByKickoff(r)
    ensures multiset(r) == multiset(s) + multiset{g}
  {
    if s == [] then [g]
    else if KickoffOrder(g, s[0]) then [g] + s
    else
      assert s == [s[0]] + s[1..];
      var rest := Insert(g, s[1..]);
      HeadPrecedes(s[0], s[1..], g, rest);
      [s[0]] + rest
  }

  /** A head that precedes the tail of a sorted list and an inserted game
      precedes everything the insertion produces. */
  lemma HeadPrecedes(h: Game, tail: seq<Game>, g: Game, rest: seq<Game>)
    requires forall x :: x in tail ==> KickoffOrder(h, x)
    requires KickoffOrder(h, g)
    requires multiset(rest) == multiset(tail) + multiset{g}
    requires SortedByKickoff(rest)
    ensures SortedByKickoff([h] + rest)
  {
    forall x | x in rest ensures KickoffOrder(h, x) {
      assert x in multiset(rest);
      if x != g {
        assert x in multiset(tail);
      }
    }
  }

  /** The games of `s` rearranged into kickoff order. */
  function SortByKickoff(s: seq<Game>): (r: seq<Game>)
    ensures SortedByKickoff(r)
    ensures multiset(r) == multiset(s)
  {
    if s == [] then []
    else
      assert s == [s[0]] + s[1..];
      Insert(s[0], SortByKickoff(s[1..]))
  }

  /** Dropping games from a sorted list leaves it sorted. */
  lemma SortedSubsequence(a: seq<Game>, b: seq<Game>)
    requires IsSubsequence(a, b) && SortedByKickoff(b)
    ensures SortedByKickoff(a)
  {
    var idx := SubsequencePositions(a, b);
    forall i, j | 0 <= i < j < |a| ensures KickoffOrder(a[i], a[j]) {
      assert a[i] == b[idx[i]] && a[j] == b[idx[j]] && idx[i] < idx[j];
    }
  }

  /** Number of games of `games` played on day `d`. */
  function GamesOnDay(games: seq<Game>, d: DayId): nat {
    if games == [] then 0
    else (if games[0].dayId == d then 1 else 0) + GamesOnDay(games[1..], d)
  }

  /** The games that survive the already-reminded check, and the days looked
      up in the reminder storage, one entry per lookup. */
  datatype Sweep = Sweep(kept: seq<Game>, lookups: seq<DayId>)

  /** Drops every game whose day has a reminder record. `cache` holds the days
      already found to have one; a day found WITHOUT a record is not cached,
      so it is looked up again for each of its games. */
  function CheckIfReminderAlreadySended(games: seq<Game>, reminded: set<DayId>, cache: set<DayId>): (r: Sweep)
    requires cache <= reminded
    ensures forall g :: multiset(r.kept)[g] == if g.dayId in reminded then 0 else multiset(games)[g]
    ensures forall d :: d !in reminded ==> multiset(r.lookups)[d] == GamesOnDay(games, d)
    ensures forall d :: d in cache ==> multiset(r.lookups)[d] == 0
    ensures forall d :: d in reminded - cache ==>
              multiset(r.lookups)[d] == if GamesOnDay(games, d) > 0 then 1 else 0
  {
    if games == [] then Sweep([], [])
    else
      var g := games[0];
      assert games == [g] + games[1..];
      if g.dayId in cache then
        CheckIfReminderAlreadySended(games[1..], reminded, cache)
      else if g.dayId in reminded then
        var rest := CheckIfReminderAlreadySended(games[1..], reminded, cache + {g.dayId});
        Sweep(rest.kept, [g.dayId] + rest.lookups)
      else
        var rest := CheckIfReminderAlreadySended(games[1..], reminded, cache);
        Sweep([g] + rest.kept, [g.dayId] + rest.lookups)
  }

  /** The games surviving the check keep their relative order. */
  lemma {:induction false} AlreadySendedKeepsOrder(games: seq<Game>, reminded: set<DayId>, cache: set<DayId>)
    requires cache <= reminded
    ensures IsSubsequence(CheckIfReminderAlreadySended(games, reminded, cache).kept, games)
  {
    if games == [] {
      SubsequenceEmpty(games);
    } else {
      var g := games[0];
      assert games == [g] + games[1..];
      if g.dayId in cache {
        AlreadySendedKeepsOrder(games[1..], reminded, cache);
        SubsequenceSkip(g, CheckIfReminderAlreadySended(games[1..], reminded, cache).kept, games[1..]);
      } else if g.dayId in reminded {
        AlreadySendedKeepsOrder(games[1..], reminded, cache + {g.dayId});
        SubsequenceSkip(g, CheckIfReminderAlreadySended(games[1..], reminded, cache + {g.dayId}).kept, games[1..]);
      } else {
        AlreadySendedKeepsOrder(games[1..], reminded, cache);
        SubsequenceCons(g, CheckIfReminderAlreadySended(games[1..], reminded, cache).kept, games[1..]);
      }
    }
  }

  /** The games a run reminds about, or the failure of building the window. */
  function GetUpcomming(hours: HoursSetting, now: int, table: seq<Game>, reminded: set<DayId>): (r: Result<seq<Game>, Error>)
    ensures r.Failure? <==> IntVal(hours) < 0
    ensures r.Success? ==> SortedByKickoff(r.value)
    ensures r.Success? ==> forall g :: g in r.value ==>
              InWindow(g, now, IntVal(hours)) && Unplayed(g) && g.dayId !in reminded
    ensures r.Success? ==> forall g ::
              multiset(r.value)[g] ==
                if InWindow(g, now, IntVal(hours)) && Unplayed(g) && g.dayId !in reminded
                then multiset(table)[g] else 0
  {
    var n := IntVal(hours);
    if n < 0 then Failure(BadInterval(n))
    else
      var wanted := (g: Game) => InWindow(g, now, n) && Unplayed(g);
      var selected := Filter(table, wanted);
      FilterMultiplicity(table, wanted);
      var sorted := SortByKickoff(selected);
      var kept := CheckIfReminderAlreadySended(sorted, reminded, {}).kept;
      AlreadySendedKeepsOrder(sorted, reminded, {});
      SortedSubsequence(kept, sorted);
      assert forall g :: g in kept ==> g in multiset(kept);
      Success(kept)
  }

  /** A window of zero hours has no room: nothing is upcoming, whatever the
      game table says. */
  lemma ZeroWindowEmpty(hours: HoursSetting, now: int, table: seq<Game>, reminded: set<DayId>)
    requires IntVal(hours) == 0
    ensures GetUpcomming(hours, now, table, reminded) == Success([])
  {
    var wanted := (g: Game) => InWindow(g, now, 0) && Unplayed(g);
    FilterNone(table, wanted);
    assert SortByKickoff([]) == [];
  }
}
