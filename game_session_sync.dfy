/**
  The client's score sync (lib/hooks/useGameSessionSync.ts): a trailing one-second
  debounce held in two refs, an optimistic write of the cached session with a
  snapshot that is restored when the send fails, and a capped exponential retry delay.
  Time is an explicit integer clock in milliseconds.
 */
module GameSessionSync {
  import opened Wrappers

  const DebounceMs: int := 1000
  /** `retry: 2`: two retries after the first attempt. */
  const Retries: nat := 2
  const RetryCapMs: int := 30000

  /** The arguments of one sync (`SyncGameSessionParams`). */
  datatype SyncParams = SyncParams(userId: string, score: int, streak: int, maxStreak: Option<int>)

  /** A cached game session (`GameSessionData`) under the query key of its user. */
  datatype SessionView = SessionView(score: int, streak: int, maxStreak: Option<int>,
                                     username: Option<string>, avatarUrl: Option<string>)

  /** A started send and the cache entry it replaced (`previousSession`, missing if there was none). */
  datatype Mutation = Mutation(params: SyncParams, snapshot: Option<SessionView>)

  /**
    The hook's state: when the pending timer fires (`debounceRef`), the last recorded
    params (`lastSyncRef`), the query cache, the sends not yet settled and every send made.
   */
  datatype SyncState = SyncState(
    due: Option<int>,
    last: Option<SyncParams>,
    cache: map<string, SessionView>,
    inFlight: seq<Mutation>,
    sent: seq<SyncParams>)

  /** `syncScore(params)`: replace any pending timer by one that fires a second from now, and record the params. */
  function Scheduled(s: SyncState, p: SyncParams, now: int): (r: SyncState)
    ensures r.due == Some(now + DebounceMs) && r.last == Some(p)
    ensures r.cache == s.cache && r.inFlight == s.inFlight && r.sent == s.sent
  {
    s.(due := Some(now + DebounceMs), last := Some(p))
  }

  /** The effect's change test: score, streak or max streak differ from the recorded params. */
  predicate Changed(last: SyncParams, score: int, streak: int, maxStreak: int) {
    last.score != score || last.streak != streak || last.maxStreak != Some(maxStreak)
  }

  /**
    The auto-sync effect for one set of store values: without a user id nothing
    happens; the first observation only records the params; later ones schedule a
    sync when the values changed.
   */
  function Observed(s: SyncState, userId: Option<string>, score: int, streak: int, maxStreak: int, now: int): SyncState
  {
    if !TruthyString(userId) then s
    else
      var current := SyncParams(userId.value, score, streak, Some(maxStreak));
      match s.last
      case Some(lastParams) =>
        if Changed(lastParams, score, streak, maxStreak) then Scheduled(s, current, now) else s
      case None => s.(last := Some(current))
  }

  /** `manualSync`: schedule the current values unconditionally, if there is a user id. */
  function ManualSynced(s: SyncState, userId: Option<string>, score: int, streak: int, maxStreak: int, now: int): SyncState
  {
    if !TruthyString(userId) then s
    else Scheduled(s, SyncParams(userId.value, score, streak, Some(maxStreak)), now)
  }

  /** The effect and unmount cleanups: clear the pending timer. */
  function CleanedUp(s: SyncState): (r: SyncState)
    ensures r.due.None? && r.last == s.last && r.cache == s.cache && r.sent == s.sent
  {
    s.(due := None)
  }

  /** The value `onMutate` writes into the cache: `{score, streak, maxStreak: maxStreak || streak}`. */
  function Optimistic(p: SyncParams): (v: SessionView)
    ensures v.score == p.score && v.streak == p.streak
    ensures v.maxStreak == Some(NumberOr(p.maxStreak, p.streak))
    ensures v.username.None? && v.avatarUrl.None?
  {
    SessionView(p.score, p.streak, Some(NumberOr(p.maxStreak, p.streak)), None, None)
  }

  /** `mutate(p)`: snapshot the cached session, write the optimistic value, and start the send. */
  function Fired(s: SyncState, p: SyncParams): (r: SyncState)
    ensures r.cache == s.cache[p.userId := Optimistic(p)]
    ensures r.sent == s.sent + [p] && r.due == s.due && r.last == s.last
    ensures r.inFlight == s.inFlight + [Mutation(p, if p.userId in s.cache then Some(s.cache[p.userId]) else None)]
  {
    var snapshot := if p.userId in s.cache then Some(s.cache[p.userId]) else None;
    s.(cache := s.cache[p.userId := Optimistic(p)],
       inFlight := s.inFlight + [Mutation(p, snapshot)],
       sent := s.sent + [p])
  }

  /** The clock reaches `now`: a pending timer that is due fires and sends the last recorded params. */
  function Ticked(s: SyncState, now: int): SyncState
  {
    match s.due
    case Some(d) =>
      if now < d then s
      else
        var cleared := s.(due := None);
        (match s.last
         case Some(p) => Fired(cleared, p)
         case None => cleared)
    case None => s
  }

  /**
    Send `k` settles. On failure (after the retries) its snapshot is put back if there
    was one; on success the optimistic value stays.
   */
  function Settled(s: SyncState, k: nat, ok: bool): (r: SyncState)
    requires k < |s.inFlight|
    ensures r.inFlight == s.inFlight[..k] + s.inFlight[k + 1..]
    ensures r.sent == s.sent && r.due == s.due && r.last == s.last
    ensures ok || s.inFlight[k].snapshot.None? ==> r.cache == s.cache
    ensures !ok && s.inFlight[k].snapshot.Some? ==>
      r.cache == s.cache[s.inFlight[k].params.userId := s.inFlight[k].snapshot.value]
  {
    var m := s.inFlight[k];
    var rest := s.inFlight[..k] + s.inFlight[k + 1..];
    if !ok && m.snapshot.Some? then s.(cache := s.cache[m.params.userId := m.snapshot.value], inFlight := rest)
    else s.(inFlight := rest)
  }

  /** The first observation with a user id records the params and schedules nothing. */
  lemma FirstObservationOnlyRecords(s: SyncState, userId: string, score: int, streak: int, maxStreak: int, now: int)
    requires s.last.None? && userId != ""
    ensures Observed(s, Some(userId), score, streak, maxStreak, now)
         == s.(last := Some(SyncParams(userId, score, streak, Some(maxStreak))))
  {
  }

  /**
    Once params are recorded, an observation changes the state exactly when score,
    streak or max streak changed, and then it schedules a send of the new values.
   */
  lemma ObservationSchedulesIffChanged(s: SyncState, userId: string, score: int, streak: int, maxStreak: int, now: int)
    requires s.last.Some? && userId != ""
    ensures Observed(s, Some(userId), score, streak, maxStreak, now) != s <==> Changed(s.last.value, score, streak, maxStreak)
    ensures Changed(s.last.value, score, streak, maxStreak) ==>
      Observed(s, Some(userId), score, streak, maxStreak, now)
        == Scheduled(s, SyncParams(userId, score, streak, Some(maxStreak)), now)
  {
    if Changed(s.last.value, score, streak, maxStreak) {
      assert Observed(s, Some(userId), score, streak, maxStreak, now).last != s.last;
    }
  }

  /** Without a user id neither the effect nor `manualSync` does anything. */
  lemma NoUserNoSync(s: SyncState, userId: Option<string>, score: int, streak: int, maxStreak: int, now: int)
    requires !TruthyString(userId)
    ensures Observed(s, userId, score, streak, maxStreak, now) == s
    ensures ManualSynced(s, userId, score, streak, maxStreak, now) == s
  {
  }

  /** `syncScore` called with each params at its time, in order. */
  function Burst(s: SyncState, calls: seq<(SyncParams, int)>): SyncState
    decreases |calls|
  {
    if calls == [] then s
    else
      var c := calls[|calls| - 1];
      Scheduled(Burst(s, calls[..|calls| - 1]), c.0, c.1)
  }

  /** After a burst only the newest call is recorded and the timer is due a second after it; nothing is sent yet. */
  lemma {:induction false} BurstKeepsLast(s: SyncState, calls: seq<(SyncParams, int)>)
    requires calls != []
    ensures Burst(s, calls).last == Some(calls[|calls| - 1].0)
    ensures Burst(s, calls).due == Some(calls[|calls| - 1].1 + DebounceMs)
    ensures Burst(s, calls).sent == s.sent && Burst(s, calls).cache == s.cache
    ensures Burst(s, calls).inFlight == s.inFlight
    decreases |calls|
  {
    if |calls| > 1 {
      BurstKeepsLast(s, calls[..|calls| - 1]);
    }
  }

  /** A tick before the due time does nothing. */
  lemma TickBeforeDueIsNoop(s: SyncState, now: int)
    requires s.due.Some? && now < s.due.value
    ensures Ticked(s, now) == s
  {
  }

  /**
    A burst followed by a tick a second (or more) after its last call sends exactly one
    request, carrying the last call's params; a further tick sends nothing more.
   */
  lemma BurstSendsLastOnce(s: SyncState, calls: seq<(SyncParams, int)>, t: int, later: int)
    requires calls != [] && t >= calls[|calls| - 1].1 + DebounceMs
    ensures Ticked(Burst(s, calls), t).sent == s.sent + [calls[|calls| - 1].0]
    ensures Ticked(Ticked(Burst(s, calls), t), later) == Ticked(Burst(s, calls), t)
  {
    BurstKeepsLast(s, calls);
  }

  /** One event seen by the hook. */
  datatype Event = Sync(p: SyncParams, at: int) | Tick(at: int)

  /** One event applied to the state. */
  function Applied(s: SyncState, e: Event): SyncState {
    match e
    case Sync(p, at) => Scheduled(s, p, at)
    case Tick(at) => Ticked(s, at)
  }

  /** The state after a sequence of events. */
  function Run(s: SyncState, events: seq<Event>): SyncState
    decreases |events|
  {
    if events == [] then s
    else Applied(Run(s, events[..|events| - 1]), events[|events| - 1])
  }

  lemma RunSnoc(s: SyncState, events: seq<Event>, e: Event)
    ensures Run(s, events + [e]) == Applied(Run(s, events), e)
  {
    assert (events + [e])[..|events|] == events;
  }

  /** Calls at 0, 200 and 400 ms with the clock ticking in between: one send, with the 400 ms values. */
  lemma DebounceExample(s: SyncState, p0: SyncParams, p1: SyncParams, p2: SyncParams)
    requires s.due.None?
    ensures Run(s, [Tick(0), Sync(p0, 0), Tick(100), Sync(p1, 200), Tick(999), Sync(p2, 400),
                    Tick(1200), Tick(1400), Tick(5000)]).sent == s.sent + [p2]
  {
    var e1 := [Tick(0)];
    RunSnoc(s, [], Tick(0));
    assert [] + [Tick(0)] == e1;
    assert Run(s, e1) == s;
    var e2 := e1 + [Sync(p0, 0)];
    RunSnoc(s, e1, Sync(p0, 0));
    var e3 := e2 + [Tick(100)];
    RunSnoc(s, e2, Tick(100));
    assert Run(s, e3) == Scheduled(s, p0, 0);
    var e4 := e3 + [Sync(p1, 200)];
    RunSnoc(s, e3, Sync(p1, 200));
    var e5 := e4 + [Tick(999)];
    RunSnoc(s, e4, Tick(999));
    assert Run(s, e5) == Scheduled(Scheduled(s, p0, 0), p1, 200);
    var e6 := e5 + [Sync(p2, 400)];
    RunSnoc(s, e5, Sync(p2, 400));
    var e7 := e6 + [Tick(1200)];
    RunSnoc(s, e6, Tick(1200));
    var r6 := Run(s, e6);
    assert r6.due == Some(1400) && r6.last == Some(p2) && r6.sent == s.sent;
    assert Run(s, e7) == r6;
    var e8 := e7 + [Tick(1400)];
    RunSnoc(s, e7, Tick(1400));
    var r8 := Run(s, e8);
    assert r8.sent == s.sent + [p2] && r8.due.None?;
    var e9 := e8 + [Tick(5000)];
    RunSnoc(s, e8, Tick(5000));
    assert Run(s, e9) == r8;
    assert e9 == [Tick(0), Sync(p0, 0), Tick(100), Sync(p1, 200), Tick(999), Sync(p2, 400),
                  Tick(1200), Tick(1400), Tick(5000)];
  }

  /**
    Firing writes the optimistic value; if that send then fails the cache returns to
    what it was before (when the user had a cached session), and if it succeeds the
    optimistic value stays.
   */
  lemma FireThenSettle(s: SyncState, p: SyncParams, ok: bool)
    ensures var fired := Fired(s, p);
      var settled := Settled(fired, |fired.inFlight| - 1, ok);
      && settled.inFlight == s.inFlight
      && (ok ==> settled.cache == s.cache[p.userId := Optimistic(p)])
      && (!ok && p.userId in s.cache ==> settled.cache == s.cache)
      && (!ok && p.userId !in s.cache ==> settled.cache == s.cache[p.userId := Optimistic(p)])
  {
    var fired := Fired(s, p);
    assert fired.inFlight[..|fired.inFlight| - 1] == s.inFlight;
  }

  /** 2 to the power `i`. */
  function Pow2(i: nat): (r: nat)
    ensures r >= 1
  {
    if i == 0 then 1 else 2 * Pow2(i - 1)
  }

  lemma {:induction false} Pow2Monotone(i: nat, j: nat)
    requires i <= j
    ensures Pow2(i) <= Pow2(j)
    decreases j
  {
    if i < j {
      Pow2Monotone(i, j - 1);
    }
  }

  /** `retryDelay(attemptIndex)`: `min(1000 * 2^attemptIndex, 30000)` milliseconds. */
  function RetryDelay(attemptIndex: nat): (d: int)
    ensures 1000 <= d <= RetryCapMs
    ensures attemptIndex == 0 ==> d == 1000
  {
    Min(1000 * Pow2(attemptIndex), RetryCapMs)
  }

  /** The retry delay doubles until it reaches the 30 s cap, so it never decreases. */
  lemma RetryDelayMonotone(i: nat, j: nat)
    requires i <= j
    ensures RetryDelay(i) <= RetryDelay(j)
  {
    Pow2Monotone(i, j);
  }

  /** Whether attempt `i` of a send succeeds; attempts past the given outcomes fail. */
  function AttemptSucceeds(outcomes: seq<bool>, i: nat): bool {
    i < |outcomes| && outcomes[i]
  }

  /**
    One send with `retry: 2`: attempts until one succeeds or three have failed, waiting
    `RetryDelay(i)` after failed attempt `i`.
   */
  method SendWithRetry(outcomes: seq<bool>) returns (ok: bool, attempts: nat, delays: seq<int>)
    ensures 1 <= attempts <= Retries + 1
    ensures forall i :: 0 <= i < attempts - 1 ==> !AttemptSucceeds(outcomes, i)
    ensures ok == AttemptSucceeds(outcomes, attempts - 1)
    ensures !ok ==> attempts == Retries + 1
    ensures |delays| == attempts - 1 && forall i :: 0 <= i < |delays| ==> delays[i] == RetryDelay(i)
  {
    ok := AttemptSucceeds(outcomes, 0);
    attempts := 1;
    delays := [];
    while !ok && attempts < Retries + 1
      invariant 1 <= attempts <= Retries + 1
      invariant forall i :: 0 <= i < attempts - 1 ==> !AttemptSucceeds(outcomes, i)
      invariant ok == AttemptSucceeds(outcomes, attempts - 1)
      invariant |delays| == attempts - 1 && forall i :: 0 <= i < |delays| ==> delays[i] == RetryDelay(i)
      decreases Retries + 1 - attempts
    {
      delays := delays + [RetryDelay(attempts - 1)];
      ok := AttemptSucceeds(outcomes, attempts);
      attempts := attempts + 1;
    }
  }

  /** The hook's refs and the query cache, updated by explicit events. */
  class SessionSync {
    var due: Option<int>
    var last: Option<SyncParams>
    var cache: map<string, SessionView>
    var inFlight: seq<Mutation>
    var sent: seq<SyncParams>

    ghost function State(): SyncState
      reads this
    {
      SyncState(due, last, cache, inFlight, sent)
    }

    /** A freshly mounted hook: no timer, no recorded params, nothing sent. */
    constructor (initialCache: map<string, SessionView>)
      ensures State() == SyncState(None, None, initialCache, [], [])
    {
      due, last, cache, inFlight, sent := None, None, initialCache, [], [];
    }

    method SyncScore(p: SyncParams, now: int)
      modifies this
      ensures State() == Scheduled(old(State()), p, now)
    {
      due := Some(now + DebounceMs);
      last := Some(p);
    }

    /** The auto-sync effect run for the current store values. */
    method Observe(userId: Option<string>, score: int, streak: int, maxStreak: int, now: int)
      modifies this
      ensures State() == Observed(old(State()), userId, score, streak, maxStreak, now)
    {
      if !TruthyString(userId) {
        return;
      }
      var current := SyncParams(userId.value, score, streak, Some(maxStreak));
      if last.Some? && Changed(last.value, score, streak, maxStreak) {
        SyncScore(current, now);
      } else if last.None? {
        last := Some(current);
      }
    }

    method ManualSync(userId: Option<string>, score: int, streak: int, maxStreak: int, now: int)
      modifies this
      ensures State() == ManualSynced(old(State()), userId, score, streak, maxStreak, now)
    {
      if !TruthyString(userId) {
        return;
      }
      SyncScore(SyncParams(userId.value, score, streak, Some(maxStreak)), now);
    }

    /** The effect cleanup or the unmount cleanup. */
    method Cleanup()
      modifies this
      ensures State() == CleanedUp(old(State()))
    {
      due := None;
    }

    /** The clock reaches `now`; a due timer fires `mutate` with the last params. */
    method Tick(now: int)
      modifies this
      ensures State() == Ticked(old(State()), now)
    {
      if due.Some? && now >= due.value {
        due := None;
        if last.Some? {
          var p := last.value;
          var snapshot := if p.userId in cache then Some(cache[p.userId]) else None;
          cache := cache[p.userId := Optimistic(p)];
          inFlight := inFlight + [Mutation(p, snapshot)];
          sent := sent + [p];
        }
      }
    }

    /** Send `k` settles with `ok`; `onError` rolls the cache back to the snapshot. */
    method Settle(k: nat, ok: bool)
      requires k < |inFlight|
      modifies this
      ensures State() == Settled(old(State()), k, ok)
    {
      var m := inFlight[k];
      if !ok && m.snapshot.Some? {
        cache := cache[m.params.userId := m.snapshot.value];
      }
      inFlight := inFlight[..k] + inFlight[k + 1..];
    }
  }
}
