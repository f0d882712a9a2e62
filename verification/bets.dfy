/** The missing-bet test: a user is worth reminding when the number of bet
    rows they have on the upcoming games is below the number of those games. */
module MissingBets {
  import opened Entities
  import opened Seqs

  /** Identifiers of the games in `games`. */
  function GameIds(games: seq<Game>): (ids: set<GameId>)
    ensures forall g :: g in games ==> g.id in ids
    ensures forall id :: id in ids ==> exists g :: g in games && g.id == id
  {
    if games == [] then {}
    else
      assert games == [games[0]] + games[1..];
      {games[0].id} + GameIds(games[1..])
  }

  /** No two games share an identifier (the game table's primary key). */
  predicate DistinctIds(games: seq<Game>) {
    forall i, j :: 0 <= i < j < |games| ==> games[i].id != games[j].id
  }

  /** Keeping at most as many copies of each game as a table with unique
      identifiers holds keeps the identifiers unique. */
  lemma DistinctIdsByMultiset(a: seq<Game>, b: seq<Game>)
    requires DistinctIds(b)
    requires forall g :: multiset(a)[g] <= multiset(b)[g]
    ensures DistinctIds(a)
  {
    FewerCopiesDistinct(a, b);
    forall i, j | 0 <= i < j < |a| ensures a[i].id != a[j].id {
      assert a[i] != a[j];
      assert a[i] in multiset(b) && a[j] in multiset(b) by {
        assert a[i] in multiset(a) && a[j] in multiset(a);
      }
      var p :| 0 <= p < |b| && b[p] == a[i];
      var q :| 0 <= q < |b| && b[q] == a[j];
      if p < q {
        assert b[p].id != b[q].id;
      } else {
        assert b[q].id != b[p].id;
      }
    }
  }

  /** Number of bet rows of `user` whose game is in `ids`: the job's
      `count(b.id)` over `b.game IN ids AND b.better = user`. */
  function CountBets(bets: seq<Bet>, user: UserId, ids: set<GameId>): (n: nat)
    ensures n <= |bets|
    ensures ids == {} ==> n == 0
  {
    if bets == [] then 0
    else (if bets[0].better == user && bets[0].game in ids then 1 else 0) + CountBets(bets[1..], user, ids)
  }

  /** Whether `user` is to be reminded about `games`. */
  predicate HasMissingBets(user: UserId, games: seq<Game>, bets: seq<Bet>) {
    if |games| == 0 then false
    else CountBets(bets, user, GameIds(games)) < |games|
  }

  /** Counting over two disjoint identifier sets adds up. */
  lemma {:induction false} CountSplit(bets: seq<Bet>, user: UserId, a: set<GameId>, b: set<GameId>)
    requires a !! b
    ensures CountBets(bets, user, a + b) == CountBets(bets, user, a) + CountBets(bets, user, b)
  {
    if bets != [] {
      CountSplit(bets[1..], user, a, b);
    }
  }

  /** For a single game the count is the number of copies of the user's bet
      row on it; with CountSplit this fixes the count for any set of games. */
  lemma {:induction false} CountBetsPerGame(bets: seq<Bet>, user: UserId, id: GameId)
    ensures CountBets(bets, user, {id}) == multiset(bets)[Bet(user, id)]
  {
    if bets != [] {
      assert bets == [bets[0]] + bets[1..];
      CountBetsPerGame(bets[1..], user, id);
    }
  }

  /** A user with a bet on `id` has at least one counted row for it. */
  lemma {:induction false} CountOnePlaced(bets: seq<Bet>, user: UserId, id: GameId)
    requires Bet(user, id) in bets
    ensures CountBets(bets, user, {id}) >= 1
  {
    if bets[0] != Bet(user, id) {
      assert bets == [bets[0]] + bets[1..];
      CountOnePlaced(bets[1..], user, id);
    }
  }

  /** Without bet rows on `id` nothing is counted for it; with unique rows at
      most one is. */
  lemma {:induction false} CountOneBound(bets: seq<Bet>, user: UserId, id: GameId)
    requires Distinct(bets)
    ensures CountBets(bets, user, {id}) <= 1
    ensures Bet(user, id) !in bets ==> CountBets(bets, user, {id}) == 0
  {
    if bets != [] {
      assert bets == [bets[0]] + bets[1..];
      assert Distinct(bets[1..]) by {
        forall i, j | 0 <= i < j < |bets[1..]| ensures bets[1..][i] != bets[1..][j] {
          assert bets[1..][i] == bets[i + 1] && bets[1..][j] == bets[j + 1];
        }
      }
      CountOneBound(bets[1..], user, id);
      if Bet(user, id) !in bets {
        CountAbsent(bets, user, {id});
      }
      if bets[0] == Bet(user, id) {
        CountAbsent(bets[1..], user, {id});
      }
    }
  }

  /** Rows that match neither the user nor the identifiers count nothing. */
  lemma {:induction false} CountAbsent(bets: seq<Bet>, user: UserId, ids: set<GameId>)
    requires forall id :: id in ids ==> Bet(user, id) !in bets
    ensures CountBets(bets, user, ids) == 0
  {
    if bets != [] {
      assert bets == [bets[0]] + bets[1..];
      CountAbsent(bets[1..], user, ids);
    }
  }

  /** With distinct game identifiers, each game bet on contributes one. */
  lemma {:induction false} CountAtLeastPlaced(bets: seq<Bet>, user: UserId, games: seq<Game>)
    requires DistinctIds(games)
    requires forall g :: g in games ==> Bet(user, g.id) in bets
    ensures CountBets(bets, user, GameIds(games)) >= |games|
  {
    if games != [] {
      var g := games[0];
      assert games == [g] + games[1..];
      assert DistinctIds(games[1..]) by {
        forall i, j | 0 <= i < j < |games[1..]| ensures games[1..][i].id != games[1..][j].id {
          assert games[1..][i] == games[i + 1] && games[1..][j] == games[j + 1];
        }
      }
      assert g.id !in GameIds(games[1..]) by { NotInTail(games); }
      CountAtLeastPlaced(bets, user, games[1..]);
      CountOnePlaced(bets, user, g.id);
      CountSplit(bets, user, {g.id}, GameIds(games[1..]));
    }
  }

  /** With distinct game identifiers and unique bet rows, each game counts at
      most once, and a game without a bet counts nothing. */
  lemma {:induction false} CountAtMostGames(bets: seq<Bet>, user: UserId, games: seq<Game>)
    requires DistinctIds(games) && Distinct(bets)
    ensures CountBets(bets, user, GameIds(games)) <= |games|
    ensures (exists g :: g in games && Bet(user, g.id) !in bets) ==>
              CountBets(bets, user, GameIds(games)) < |games|
  {
    if games == [] {
      CountAbsent(bets, user, {});
    } else {
      var g := games[0];
      assert games == [g] + games[1..];
      assert DistinctIds(games[1..]) by {
        forall i, j | 0 <= i < j < |games[1..]| ensures games[1..][i].id != games[1..][j].id {
          assert games[1..][i] == games[i + 1] && games[1..][j] == games[j + 1];
        }
      }
      assert g.id !in GameIds(games[1..]) by { NotInTail(games); }
      CountAtMostGames(bets, user, games[1..]);
      CountOneBound(bets, user, g.id);
      CountSplit(bets, user, {g.id}, GameIds(games[1..]));
      assert GameIds(games) == {g.id} + GameIds(games[1..]);
      assert CountBets(bets, user, GameIds(games))
          == CountBets(bets, user, {g.id}) + CountBets(bets, user, GameIds(games[1..]));
      if exists h :: h in games && Bet(user, h.id) !in bets {
        var h :| h in games && Bet(user, h.id) !in bets;
        if h != g {
          assert h in games[1..];
        }
      }
    }
  }

  /** The head's identifier does not reappear in the tail. */
  lemma NotInTail(games: seq<Game>)
    requires games != [] && DistinctIds(games)
    ensures games[0].id !in GameIds(games[1..])
  {
  }

  /** Without upcoming games nobody is reminded, whatever their bets. */
  lemma NoGamesNoReminder(user: UserId, bets: seq<Bet>)
    ensures !HasMissingBets(user, [], bets)
  {
  }

  /** With the database's uniqueness guarantees, a user is reminded exactly
      when some upcoming game lacks their bet; in particular never when there
      are no upcoming games. */
  lemma MissingBetsIffSomeGameUnbet(user: UserId, games: seq<Game>, bets: seq<Bet>)
    requires DistinctIds(games) && Distinct(bets)
    ensures HasMissingBets(user, games, bets) <==> exists g :: g in games && Bet(user, g.id) !in bets
  {
    if forall g :: g in games ==> Bet(user, g.id) in bets {
      CountAtLeastPlaced(bets, user, games);
    } else {
      CountAtMostGames(bets, user, games);
    }
  }

  /** A user who has bet on every upcoming game is never reminded, whatever
      other rows the bet table holds. */
  lemma AllPlacedNoReminder(user: UserId, games: seq<Game>, bets: seq<Bet>)
    requires DistinctIds(games)
    requires forall g :: g in games ==> Bet(user, g.id) in bets
    ensures !HasMissingBets(user, games, bets)
  {
    CountAtLeastPlaced(bets, user, games);
  }
}
