/**
  `updateGameSessionScore` (lib/game/realtimeGame.ts): read the user's session row, then
  either merge the reported values into it or insert a new row. The high score and the
  max streak only grow; the current streak is overwritten.
 */
module RealtimeGame {
  import opened Wrappers
  import opened SessionTable

  /** How the call ends: it resolves, or it rethrows the database error. */
  datatype Outcome = Resolved | Rejected(reason: string)

  /** The row written over an existing one: `Math.max` merges for score and max streak. */
  function MergedRow(existing: SessionRow, score: int, streak: int, maxStreak: Option<int>): (r: SessionRow)
    ensures r.score.Some? && r.streak.Some? && r.maxStreak.Some?
    ensures r.score.value >= OrZero(existing.score) && r.score.value >= score
    ensures r.score.value == OrZero(existing.score) || r.score.value == score
    ensures r.streak.value == streak
    ensures r.maxStreak.value >= OrZero(existing.maxStreak) && r.maxStreak.value >= streak
    ensures r.maxStreak.value >= NumberOr(maxStreak, streak)
    ensures r.maxStreak.value in {OrZero(existing.maxStreak), NumberOr(maxStreak, streak), streak}
  {
    var newHighScore := Max(OrZero(existing.score), score);
    var newMaxStreak := Max(Max(OrZero(existing.maxStreak), NumberOr(maxStreak, streak)), streak);
    SessionRow(Some(newHighScore), Some(streak), Some(newMaxStreak))
  }

  /** The row inserted when the user has none: the reported values, `maxStreak || streak` as max streak. */
  function InsertedRow(score: int, streak: int, maxStreak: Option<int>): (r: SessionRow)
    ensures r.score == Some(score) && r.streak == Some(streak)
    ensures maxStreak.Some? && maxStreak.value != 0 ==> r.maxStreak == maxStreak
    ensures (maxStreak.None? || maxStreak.value == 0) ==> r.maxStreak == Some(streak)
  {
    SessionRow(Some(score), Some(streak), Some(NumberOr(maxStreak, streak)))
  }

  /** The table after a successful call: only the row of `userId` is written. */
  function Reported(rows: map<string, SessionRow>, userId: string, score: int, streak: int, maxStreak: Option<int>)
    : (r: map<string, SessionRow>)
    ensures r.Keys == rows.Keys + {userId}
    ensures forall u :: u in rows && u != userId ==> r[u] == rows[u]
    ensures userId in rows ==> r[userId] == MergedRow(rows[userId], score, streak, maxStreak)
    ensures userId !in rows ==> r[userId] == InsertedRow(score, streak, maxStreak)
  {
    if userId in rows then rows[userId := MergedRow(rows[userId], score, streak, maxStreak)]
    else rows[userId := InsertedRow(score, streak, maxStreak)]
  }

  /**
    `updateGameSessionScore`. `readFails` is the outcome of the select, `writeFails` that
    of the update or insert; a failed step writes nothing and the error propagates.
   */
  method UpdateGameSessionScore(table: GameSessions, userId: string, score: int, streak: int,
                                maxStreak: Option<int>, readFails: bool, writeFails: bool)
    returns (outcome: Outcome)
    modifies table
    ensures outcome.Rejected? <==> readFails || writeFails
    ensures readFails ==> table.rows == old(table.rows)
    ensures table.rows ==
      if readFails || writeFails then old(table.rows)
      else Reported(old(table.rows), userId, score, streak, maxStreak)
  {
    if readFails {
      return Rejected("fetch error");
    }
    var existing: Option<SessionRow> := if userId in table.rows then Some(table.rows[userId]) else None;
    if existing.Some? {
      var newHighScore := Max(OrZero(existing.value.score), score);
      var newMaxStreak := Max(Max(OrZero(existing.value.maxStreak), NumberOr(maxStreak, streak)), streak);
      if writeFails {
        return Rejected("update error");
      }
      table.rows := table.rows[userId := SessionRow(Some(newHighScore), Some(streak), Some(newMaxStreak))];
    } else {
      if writeFails {
        return Rejected("insert error");
      }
      table.rows := table.rows[userId := SessionRow(Some(score), Some(streak), Some(NumberOr(maxStreak, streak)))];
    }
    outcome := Resolved;
  }

  /** A report whose max streak hint (`maxStreak || streak`) is not below its streak, as the game store sends. */
  predicate ConsistentHint(streak: int, maxStreak: Option<int>) {
    NumberOr(maxStreak, streak) >= streak
  }

  /**
    Repeating an identical report leaves the table as the first one left it, when the
    row existed or the hint is consistent (see InsertThenRepeatRaisesMaxStreak otherwise).
   */
  lemma ReportIdempotent(rows: map<string, SessionRow>, userId: string, score: int, streak: int, maxStreak: Option<int>)
    requires userId in rows || ConsistentHint(streak, maxStreak)
    ensures Reported(Reported(rows, userId, score, streak, maxStreak), userId, score, streak, maxStreak)
         == Reported(rows, userId, score, streak, maxStreak)
  {
    var once := Reported(rows, userId, score, streak, maxStreak);
    var row := once[userId];
    assert OrZero(row.score) >= score;
    assert OrZero(row.maxStreak) >= NumberOr(maxStreak, streak);
    assert MergedRow(row, score, streak, maxStreak) == row;
  }

  /** One reported triple, as `useGameSessionSync` sends it. */
  datatype Report = Report(score: int, streak: int, maxStreak: Option<int>)

  /** The table after a sequence of successful reports for one user, oldest first. */
  function ReportAll(rows: map<string, SessionRow>, userId: string, reports: seq<Report>): map<string, SessionRow>
    decreases |reports|
  {
    if reports == [] then rows
    else
      var r := reports[|reports| - 1];
      Reported(ReportAll(rows, userId, reports[..|reports| - 1]), userId, r.score, r.streak, r.maxStreak)
  }

  /** The largest reported score. */
  function MaxScore(reports: seq<Report>): int
    requires reports != []
    decreases |reports|
  {
    if |reports| == 1 then reports[0].score
    else Max(MaxScore(reports[..|reports| - 1]), reports[|reports| - 1].score)
  }

  /**
    After any non-empty sequence of reports the stored high score is the maximum of the
    reported scores and of the score the row had before (if any), the stored streak is
    the last reported streak, and the stored max streak is at least every reported
    streak and the old max streak. Other users' rows are untouched.
   */
  lemma {:induction false} ReportAllMerges(rows: map<string, SessionRow>, userId: string, reports: seq<Report>)
    requires reports != []
    ensures var r := ReportAll(rows, userId, reports);
      && userId in r && r[userId].score.Some? && r[userId].streak.Some? && r[userId].maxStreak.Some?
      && r[userId].score.value == (if userId in rows then Max(OrZero(rows[userId].score), MaxScore(reports)) else MaxScore(reports))
      && r[userId].streak.value == reports[|reports| - 1].streak
      && (userId in rows || ConsistentHint(reports[0].streak, reports[0].maxStreak) ==>
            forall i :: 0 <= i < |reports| ==> r[userId].maxStreak.value >= reports[i].streak)
      && (userId in rows ==> r[userId].maxStreak.value >= OrZero(rows[userId].maxStreak))
      && (forall u :: u in rows && u != userId ==> u in r && r[u] == rows[u])
    decreases |reports|
  {
    var last := reports[|reports| - 1];
    var prefix := reports[..|reports| - 1];
    if prefix != [] {
      ReportAllMerges(rows, userId, prefix);
      var before := ReportAll(rows, userId, prefix);
      assert forall i :: 0 <= i < |prefix| ==> prefix[i] == reports[i];
      assert MaxScore(reports) == Max(MaxScore(prefix), last.score);
    }
  }

  /**
    The insert branch stores `maxStreak || streak` without comparing it with the streak:
    a first report (0, 5, 3) stores max streak 3 below streak 5, and repeating the same
    report then raises it to 5.
   */
  lemma InsertThenRepeatRaisesMaxStreak(rows: map<string, SessionRow>, userId: string)
    requires userId !in rows
    ensures var once := Reported(rows, userId, 0, 5, Some(3));
      && once[userId].maxStreak == Some(3)
      && once[userId].streak == Some(5)
      && Reported(once, userId, 0, 5, Some(3))[userId].maxStreak == Some(5)
  {
  }

  /** The high score never decreases across reports, whatever their order. */
  lemma HighScoreNeverDecreases(rows: map<string, SessionRow>, userId: string, reports: seq<Report>)
    requires reports != [] && userId in rows
    ensures OrZero(ReportAll(rows, userId, reports)[userId].score) >= OrZero(rows[userId].score)
  {
    ReportAllMerges(rows, userId, reports);
  }

  /** Reporting all zeros for a user with no row still creates the row (0, 0, 0). */
  lemma ZeroReportCreatesRow(rows: map<string, SessionRow>, userId: string)
    requires userId !in rows
    ensures Reported(rows, userId, 0, 0, Some(0)) == rows[userId := SessionRow(Some(0), Some(0), Some(0))]
  {
  }
}
