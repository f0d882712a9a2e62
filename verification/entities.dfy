/** The records the reminder job reads and writes, reduced to the fields it
    uses. Entity identifiers are plain integers; timestamps are UTC seconds. */
module Entities {

  type GameId = int
  type DayId = int
  type LeagueId = int
  type UserId = int

  datatype Option<T> = None | Some(value: T)

  datatype Result<T, E> = Success(value: T) | Failure(error: E)

  /** A game: the match day it belongs to, its kickoff time, and the two
      scores, which stay unset until the result is entered. */
  datatype Game = Game(id: GameId, dayId: DayId, kickoff: int, score1: Option<int>, score2: Option<int>)

  /** One row of the bet table: `better` has placed a bet on `game`. */
  datatype Bet = Bet(better: UserId, game: GameId)

  /** One row of the league ranking table: `better` takes part in `league`. */
  datatype RankingEntry = RankingEntry(league: LeagueId, better: UserId)

  /** An account with its status flag and its reminder opt-in preference. */
  datatype User = User(id: UserId, active: bool, reminderEnabled: bool)

  /** The marker written once reminders for a day went out; `hour` is a field
      of the record that the job leaves empty. */
  datatype ReminderRecord = ReminderRecord(day: DayId, hour: Option<nat>, emailsSended: nat)

  /** Ways a run of the job aborts. */
  datatype Error =
    | BadInterval(hours: int)  // a negative hour count is not a valid date interval
    | MissingDay(day: DayId)   // a game refers to a day that is not stored
}
