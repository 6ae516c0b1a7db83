/**
  The `game_sessions` table, one row per user id. Columns the code reads can be null,
  so each numeric column is optional.
 */
module SessionTable {
  import opened Wrappers

  /** A `game_sessions` row: high score, current streak and all-time max streak. */
  datatype SessionRow = SessionRow(score: Option<int>, streak: Option<int>, maxStreak: Option<int>)

  /** The table, keyed on `user_id`. */
  class GameSessions {
    var rows: map<string, SessionRow>

    constructor (initial: map<string, SessionRow>)
      ensures rows == initial
    {
      rows := initial;
    }
  }
}
