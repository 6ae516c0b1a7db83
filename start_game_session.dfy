/**
  `POST /api/start-game-session` (app/api/start-game-session/route.ts): return the user's
  session row if there is one, otherwise insert a row with score 0 and streak 0.
 */
module StartGameSession {
  import opened Wrappers
  import opened SessionTable

  /** The request body: unreadable JSON, or a body with an optional `user_id`. */
  datatype Request = Unreadable | Body(userId: Option<string>)

  /** The route's answers: 400, 500, or the session with `isNew`. */
  datatype Response = BadRequest | ServerError | Started(session: SessionRow, isNew: bool)

  /** The row `startGameSession` inserts; `max_streak` is left to the column default (not known here, so null). */
  const NewSession: SessionRow := SessionRow(Some(0), Some(0), None)

  /** The response and the table after one request; `readFails` and `insertFails` are the database's outcomes. */
  function Start(rows: map<string, SessionRow>, req: Request, readFails: bool, insertFails: bool)
    : (r: (Response, map<string, SessionRow>))
    ensures r.0 == BadRequest <==> req.Body? && !TruthyString(req.userId)
    ensures r.0.Started? ==> req.Body? && TruthyString(req.userId) && !readFails
    ensures r.0.Started? && r.0.isNew ==> req.userId.value !in rows && r.1 == rows[req.userId.value := NewSession]
    ensures r.0.Started? && !r.0.isNew ==> req.userId.value in rows && r.0.session == rows[req.userId.value]
    ensures !(r.0.Started? && r.0.isNew) ==> r.1 == rows
    ensures req.Body? && TruthyString(req.userId) && !readFails && req.userId.value in rows ==>
      r.0 == Started(rows[req.userId.value], false)
    ensures req.Body? && TruthyString(req.userId) && !readFails && req.userId.value !in rows && !insertFails ==>
      r.0 == Started(NewSession, true)
  {
    match req
    case Unreadable => (ServerError, rows)
    case Body(userId) =>
      if !TruthyString(userId) then (BadRequest, rows)
      else if readFails then (ServerError, rows)
      else if userId.value in rows then (Started(rows[userId.value], false), rows)
      else if insertFails then (ServerError, rows)
      else (Started(NewSession, true), rows[userId.value := NewSession])
  }

  /** The route handler, as read-then-insert-if-absent on the table. */
  method Post(table: GameSessions, req: Request, readFails: bool, insertFails: bool) returns (resp: Response)
    modifies table
    ensures (resp, table.rows) == Start(old(table.rows), req, readFails, insertFails)
  {
    if req.Unreadable? {
      return ServerError;
    }
    var userId := req.userId;
    if !TruthyString(userId) {
      return BadRequest;
    }
    if readFails {
      return ServerError;
    }
    if userId.value in table.rows {
      return Started(table.rows[userId.value], false);
    }
    if insertFails {
      return ServerError;
    }
    table.rows := table.rows[userId.value := NewSession];
    resp := Started(NewSession, true);
  }

  /**
    Two successful requests for the same user create at most one row: the second one
    finds the row the first created (or found) and answers `isNew: false` with it.
   */
  lemma StartTwice(rows: map<string, SessionRow>, userId: string, insertFails1: bool, insertFails2: bool)
    requires userId != ""
    ensures var (r1, m1) := Start(rows, Body(Some(userId)), false, insertFails1);
      var (r2, m2) := Start(m1, Body(Some(userId)), false, insertFails2);
      r1.Started? ==> r2 == Started(r1.session, false) && m2 == m1 && m1.Keys <= rows.Keys + {userId}
  {
  }
}
