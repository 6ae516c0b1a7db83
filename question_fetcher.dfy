/**
  The client's question fetch (lib/game/questionFetcher.ts): a POST to the question
  route with a linear back-off between attempts, validation of the reply, and a
  fixed set of three questions when every attempt has failed. Each attempt's
  outcome, `crypto.randomUUID()` and the `Math.random()` choice are parameters.
 */
module QuestionFetcher {
  import opened Wrappers
  import opened JsValue

  const MaxRetries: int := 3
  const RetryDelayMs: int := 1000

  /** A question as `fetchQuestion` returns it; the fields carry the reply's values unchanged. */
  datatype Fetched = Fetched(id: Value, questionText: Value, options: seq<Value>, correctAnswerIndex: Value, explanation: Value)

  /**
    What one attempt ends with: the 30-second abort fired (`AbortError`), the request
    failed otherwise (network error, non-ok status, a body that is not JSON), or a
    parsed body arrived.
   */
  datatype AttemptOutcome = Aborted | Failed | Received(data: Value)

  /** The validation and the mapping of an accepted body; missing means the attempt throws. */
  function Accept(data: Value, freshId: string): Option<Fetched> {
    if Nullish(data) then None
    else
      var text := Get(data, "question_text");
      var options := Get(data, "options");
      if !Truthy(text) || !options.Arr? || |options.items| < 4 || |options.items| > 5 then None
      else Some(Fetched(
        Or(Get(data, "id"), Str(freshId)),
        text,
        options.items,
        Get(data, "correct_answer_index"),
        Or(Get(data, "explanation"), Null)))
  }

  /**
    A body is accepted exactly when its text is truthy and its options are an array
    of 4 or 5 items; it then keeps text, options and index, takes the fresh id only
    when `id` is falsy, and `null` for a falsy explanation.
   */
  lemma AcceptExactly(data: Value, freshId: string)
    ensures Accept(data, freshId).Some? <==>
      Truthy(Get(data, "question_text")) && Get(data, "options").Arr? && 4 <= |Get(data, "options").items| <= 5
    ensures Accept(data, freshId).Some? ==>
      var q := Accept(data, freshId).value;
      && q.questionText == Get(data, "question_text")
      && q.options == Get(data, "options").items
      && q.correctAnswerIndex == Get(data, "correct_answer_index")
      && (Truthy(Get(data, "id")) ==> q.id == Get(data, "id"))
      && (!Truthy(Get(data, "id")) ==> q.id == Str(freshId))
      && (Truthy(Get(data, "explanation")) ==> q.explanation == Get(data, "explanation"))
      && (!Truthy(Get(data, "explanation")) ==> q.explanation == Null)
  {
  }

  /** The index is not checked: an accepted question may name an option that does not exist. */
  lemma IndexNotChecked(freshId: string)
    ensures var data := Obj(map["question_text" := Str("Q"), "options" := Arr([Str("a"), Str("b"), Str("c"), Str("d")]),
                                "correct_answer_index" := Num(7)]);
      Accept(data, freshId).Some? && Accept(data, freshId).value.correctAnswerIndex == Num(7)
  {
  }

  const FranceExplanation: string :=
    "Paris is the capital and largest city of France, located in the north-central part of the country."
  const MarsExplanation: string :=
    "Mars is called the Red Planet because of the iron oxide (rust) on its surface, which gives it a reddish appearance."
  const PacificExplanation: string :=
    "The Pacific Ocean is the largest and deepest ocean, covering approximately one-third of the Earth's surface."

  /** `getFallbackQuestion()`'s three questions, each with a fresh id. */
  function Fallbacks(freshId: string): seq<Fetched> {
    [ Fetched(Str(freshId), Str("What is the capital of France?"),
              Strs(["London", "Berlin", "Paris", "Madrid"]), Num(2), Str(FranceExplanation)),
      Fetched(Str(freshId), Str("Which planet is known as the Red Planet?"),
              Strs(["Venus", "Mars", "Jupiter", "Saturn"]), Num(1), Str(MarsExplanation)),
      Fetched(Str(freshId), Str("What is the largest ocean on Earth?"),
              Strs(["Atlantic Ocean", "Indian Ocean", "Arctic Ocean", "Pacific Ocean"]), Num(3), Str(PacificExplanation)) ]
  }

  /** Each fallback question has four string options and a correct index inside them, and passes validation itself. */
  lemma FallbacksWellFormed(freshId: string)
    ensures |Fallbacks(freshId)| == 3
    ensures forall k :: 0 <= k < 3 ==>
      var q := Fallbacks(freshId)[k];
      && |q.options| == 4
      && (forall j :: 0 <= j < 4 ==> q.options[j].Str?)
      && q.correctAnswerIndex.Num? && 0 <= q.correctAnswerIndex.n < |q.options|
      && Truthy(q.questionText)
  {
  }

  /** The outcome of attempt `k` (counted from 0); outcomes past the given ones are failures. */
  function OutcomeOf(outcomes: seq<AttemptOutcome>, k: nat): AttemptOutcome {
    if k < |outcomes| then outcomes[k] else Failed
  }

  /** Whether attempt `k` produced a question. */
  predicate Succeeds(outcomes: seq<AttemptOutcome>, k: nat, freshId: string) {
    OutcomeOf(outcomes, k).Received? && Accept(OutcomeOf(outcomes, k).data, freshId).Some?
  }

  /** The retry bound after the `retries = MAX_RETRIES` default. */
  function RetryLimit(retries: Option<int>): int {
    retries.GetOr(MaxRetries)
  }

  /**
    `fetchQuestion({retries})`: attempt 1, 2, ... until one succeeds; after failed
    attempt `n` (counted from 1) it waits `1000·n` ms and tries again only while
    `n < retries` and the failure was not an abort; otherwise it returns fallback `pick`.
   */
  method FetchQuestion(retries: Option<int>, outcomes: seq<AttemptOutcome>, freshId: string, pick: nat)
    returns (q: Fetched, attempts: nat, waits: seq<int>)
    requires pick < 3
    ensures 1 <= attempts <= Max(1, RetryLimit(retries))
    ensures |waits| == attempts - 1 && forall k :: 0 <= k < |waits| ==> waits[k] == RetryDelayMs * (k + 1)
    ensures forall k :: 0 <= k < attempts - 1 ==> !Succeeds(outcomes, k, freshId) && !OutcomeOf(outcomes, k).Aborted?
    ensures Succeeds(outcomes, attempts - 1, freshId) ==>
      q == Accept(OutcomeOf(outcomes, attempts - 1).data, freshId).value
    ensures !Succeeds(outcomes, attempts - 1, freshId) ==>
      q == Fallbacks(freshId)[pick]
      && (attempts >= RetryLimit(retries) || OutcomeOf(outcomes, attempts - 1).Aborted?)
  {
    var limit := RetryLimit(retries);
    attempts := 1;
    waits := [];
    while true
      invariant 1 <= attempts <= Max(1, limit)
      invariant |waits| == attempts - 1 && forall k :: 0 <= k < |waits| ==> waits[k] == RetryDelayMs * (k + 1)
      invariant forall k :: 0 <= k < attempts - 1 ==> !Succeeds(outcomes, k, freshId) && !OutcomeOf(outcomes, k).Aborted?
      decreases Max(1, limit) - attempts
    {
      var outcome := OutcomeOf(outcomes, attempts - 1);
      if outcome.Received? && Accept(outcome.data, freshId).Some? {
        q := Accept(outcome.data, freshId).value;
        return;
      }
      if attempts < limit && !outcome.Aborted? {
        waits := waits + [RetryDelayMs * attempts];
        attempts := attempts + 1;
      } else {
        q := Fallbacks(freshId)[pick];
        return;
      }
    }
  }

  /** With the default bound at most three attempts are made, with waits of 1 s and then 2 s. */
  method DefaultFetch(outcomes: seq<AttemptOutcome>, freshId: string, pick: nat)
    returns (q: Fetched, attempts: nat, waits: seq<int>)
    requires pick < 3
    ensures 1 <= attempts <= 3
    ensures waits == [1000, 2000][..attempts - 1]
  {
    q, attempts, waits := FetchQuestion(None, outcomes, freshId, pick);
  }

  /** An abort on the first attempt returns a fallback at once, whatever the bound. */
  method AbortNotRetried(retries: Option<int>, rest: seq<AttemptOutcome>, freshId: string, pick: nat)
    returns (q: Fetched, attempts: nat)
    requires pick < 3
    ensures attempts == 1 && q == Fallbacks(freshId)[pick]
  {
    var waits;
    assert OutcomeOf([Aborted] + rest, 0) == Aborted;
    q, attempts, waits := FetchQuestion(retries, [Aborted] + rest, freshId, pick);
  }
}
