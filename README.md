# AI Trivia Arena — a Dafny model of the game core

This project models the game core of AI Trivia Arena, a trivia web app written in TypeScript (Next.js, Zustand, React Query, Supabase):

- **Game store.** Score, streak, max streak and correct count move on each answer. The points come from the difficulty: easy 50, medium 100, hard 150.
- **Server-side session table.** `updateGameSessionScore` keeps the high score and the all-time max streak. `POST /api/start-game-session` creates or returns a user's session.
- **Client sync hook.** It debounces score reports by one second, applies an optimistic cache update, rolls it back when the send fails, and retries with exponential back-off.
- **Question pipeline.**
  - The OpenRouter and OpenAI generators normalise the model's JSON.
  - `generateAndSaveQuestion` stores the result.
  - The provider chooser falls back to the other provider.
  - The client's `fetchQuestion` retries with a linear back-off and validates each reply. When every attempt fails, it returns one of three fixed fallback questions.
- **Leaderboard.** The rows are sorted by score or by streak, the first ten are kept, and missing names and numbers are filled in.
- **Browser caches and the stores built on them.** The settings cache (JSON in `localStorage`), the user cache, `userStore`, `userSettingsStore`, and the store initialiser that runs once per page.
- **Voice previews.** The fixed list of twelve Deepgram voices, the `voice_previews` table, and the `GET /api/voice-preview` route that reads it through as a cache.
- **Avatars.** The colour an avatar gets from a shift-and-add hash of the name whose `<<` truncates to 32 bits, and the initials two avatar components take from a name.

## How it is modelled

- **Values.** Each entity that is a value is a `datatype` (`types.dfy`). JavaScript values that the generators inspect are the `JsValue.Value` datatype, with JavaScript's truthiness, `?.`, `??`, `||` and `String(...)`. `String(...)` includes the TypeError it throws for an object with an own `toString` member. A value from `JSON.parse` can hold such a member, but it is never callable.
- **State.** Each entity that the source updates in place is a `class`:
  - the Zustand stores;
  - `localStorage`;
  - the `game_sessions` and `voice_previews` tables;
  - the sync hook's refs and query cache;
  - the initialiser's flag.

  Each method's `ensures` states that the new state equals a pure transition function of the old state (`Answered`, `Reported`, `SavedSettings`, …). Classes with several fields expose them as one ghost `State()` value. The single-field tables (`game_sessions`, `voice_previews`) and the initialiser's flag are stated on the field itself. The properties are proved as lemmas about the transition functions.
- **Outside effects become parameters.** Every outcome the code cannot decide itself is a parameter:
  - database reads and writes that fail;
  - `localStorage` calls that throw;
  - model replies;
  - `JSON.parse` of a reply, as a function parameter;
  - `crypto.randomUUID()` and the `Math.random()` pick;
  - timer instants;
  - whether `window` exists.
- **JSON.** The settings cache's `JSON.stringify` and `JSON.parse` are a concrete encoder and decoder for objects with string and boolean members (`json_text.dfy`). `ParseStringify` proves that the decoder reads back exactly what the encoder writes.
- **Avatar text.** Avatar names are sequences of UTF-16 code units. The hash's `<<` truncates its operand and its result to 32 bits; this is written out as ToInt32 on unbounded integers, while the running hash itself is an unbounded integer.

## Model

| member | source | states |
|---|---|---|
| GameStore.Answered | lib/store/gameStore.ts:86-109 | A correct answer adds the difficulty's points (easy when none is given), raises the streak and the correct count by one. A wrong answer keeps the score and resets the streak to 0. The max streak never drops and is at least the new streak. Username, question and asked ids are unchanged. |
| GameStore.FromDB | lib/store/gameStore.ts:117-129 | Loading from the database sets score and streak, sets the max streak to the loaded streak, zeroes the correct count and keeps the rest. |
| GameStore.PlayTotals | lib/store/gameStore.ts:86-109 | Over any run of answers, the score is the start score plus the points earned and never decreases. The correct count grows by the number of correct answers. The max streak never decreases. Username and asked ids stay. |
| GameStore.PlayStreak | lib/store/gameStore.ts:86-109 | After any run of answers, the streak is the length of the trailing run of correct answers (added to the old streak when every answer was correct), and the max streak is at least the streak. |
| GameStore.Store.constructor | lib/store/gameStore.ts:54-60 | The store starts with username "CosmicExplorer", no question, all counters 0 and no asked ids. |
| GameStore.Store.SetUsername | lib/store/gameStore.ts:62 | Sets the username; every other field is unchanged. |
| GameStore.Store.SetQuestion | lib/store/gameStore.ts:64 | Sets the current question; every other field is unchanged. |
| GameStore.Store.SetScore | lib/store/gameStore.ts:66 | Sets the score; every other field is unchanged. |
| GameStore.Store.SetStreak | lib/store/gameStore.ts:68 | Sets the streak; every other field is unchanged. |
| GameStore.Store.SetMaxStreak | lib/store/gameStore.ts:70 | Sets the max streak; every other field is unchanged. |
| GameStore.Store.ResetCorrectCount | lib/store/gameStore.ts:72 | Zeroes the correct count; every other field is unchanged. |
| GameStore.Store.AddAskedQuestion | lib/store/gameStore.ts:74-77 | Appends the id to the asked ids; every other field is unchanged. |
| GameStore.Store.ResetAskedQuestions | lib/store/gameStore.ts:79 | Empties the asked ids; every other field is unchanged. |
| GameStore.Store.ApplyResult | lib/store/gameStore.ts:86-109 | The new state is Answered of the old one. |
| GameStore.Store.InitializeFromDB | lib/store/gameStore.ts:117-129 | The new state is FromDB of the old one. |
| Difficulty.DifficultyPoints | lib/constants/index.ts:29-33 | The table has an entry exactly for easy, medium and hard. |
| Difficulty.PointsForDifficulty | lib/game/difficulty.ts:16-19 | Lower-cased "medium" gives 100 and "hard" gives 150. Every other string gives the easy 50. |
| Difficulty.PointsIgnoreCase | lib/game/difficulty.ts:17 | Two names that agree after lower-casing score the same. |
| Difficulty.PointsOfUpperCase | lib/game/difficulty.ts:17 | An upper-cased name scores like the original. |
| Difficulty.PointTable | lib/constants/index.ts:29-33 | Easy, medium and hard give 50, 100 and 150, so medium is twice and hard three times easy. |
| Difficulty.PaddedNameScoresEasy | lib/game/difficulty.ts:17-18 | Names are not trimmed: " hard " and "" score as easy. |
| RealtimeGame.MergedRow | lib/game/realtimeGame.ts:94-116 | The updated row's score is the larger of the stored score (`\|\| 0`) and the reported one. The streak is the reported one. The max streak is the largest of the stored max, the hint (`\|\| streak`) and the streak. |
| RealtimeGame.InsertedRow | lib/game/realtimeGame.ts:132-139 | A new row has the reported score and streak, and the hint as max streak unless the hint is missing or 0, then the streak. |
| RealtimeGame.Reported | lib/game/realtimeGame.ts:77-148 | A report touches only the user's row: it merges into an existing row or inserts a new one, and all other rows stay. |
| RealtimeGame.UpdateGameSessionScore | lib/game/realtimeGame.ts:65-153 | The call rejects exactly when the read or the write fails, and then the table is unchanged. Otherwise the table becomes Reported of the old one. |
| RealtimeGame.ReportIdempotent | lib/game/realtimeGame.ts:90-139 | Repeating an identical report changes nothing more, when the row existed or the hint is at least the streak. |
| RealtimeGame.ReportAllMerges | lib/game/realtimeGame.ts:90-139 | After any run of reports for one user, the score is the maximum of the stored and all reported scores. The streak is the last one reported. The max streak bounds every reported streak and the stored max. Other users' rows are untouched. |
| RealtimeGame.InsertThenRepeatRaisesMaxStreak | lib/game/realtimeGame.ts:98-138 | The insert and the update treat the hint differently: an insert with hint 3 and streak 5 stores 3, and the same report again stores 5. |
| RealtimeGame.HighScoreNeverDecreases | lib/game/realtimeGame.ts:95-113 | For an existing row, the stored high score never goes down, whatever is reported. |
| RealtimeGame.ZeroReportCreatesRow | lib/game/realtimeGame.ts:132-139 | A zero report for a new user creates exactly the row 0/0/0. |
| StartGameSession.Start | app/api/start-game-session/route.ts:5-45 | A body without a truthy `user_id` gives 400, and an unreadable body or a failing database gives 500. An existing row is returned with `isNew: false` and nothing written. Otherwise one row with score 0 and streak 0 is inserted and returned with `isNew: true`. No other row changes. |
| StartGameSession.Post | app/api/start-game-session/route.ts:5-45 | The response and the new table are those of Start. |
| StartGameSession.StartTwice | app/api/start-game-session/route.ts:17-40 | A second successful request for the same user finds the first one's row, answers `isNew: false` with it and writes nothing. |
| GameSessionSync.Scheduled | lib/hooks/useGameSessionSync.ts:76-94 | `syncScore` replaces any pending timer with one due 1000 ms later and records the params as the latest. It sends nothing. |
| GameSessionSync.CleanedUp | lib/hooks/useGameSessionSync.ts:124-128 | The cleanup only clears the pending timer. |
| GameSessionSync.Optimistic | lib/hooks/useGameSessionSync.ts:50-54 | The optimistic cache entry holds the sent score and streak, with the max streak falling back to the streak when it is 0/absent. |
| GameSessionSync.Fired | lib/hooks/useGameSessionSync.ts:42-57 | Firing sends the params once, writes the optimistic entry, and keeps the previous entry as the mutation's snapshot. |
| GameSessionSync.Settled | lib/hooks/useGameSessionSync.ts:58-64 | A settled mutation leaves the queue. On failure with a snapshot, the user's cache entry is rolled back to it; otherwise the cache stays. |
| GameSessionSync.Observed | lib/hooks/useGameSessionSync.ts:97-129 | The auto-sync effect for one set of store values; FirstObservationOnlyRecords, ObservationSchedulesIffChanged and NoUserNoSync characterise it. |
| GameSessionSync.ManualSynced | lib/hooks/useGameSessionSync.ts:132-141 | `manualSync`: with a user id it schedules the current values, as Scheduled does; without one, NoUserNoSync shows it does nothing. |
| GameSessionSync.Ticked | lib/hooks/useGameSessionSync.ts:87-91 | The debounce timer firing: once due, the recorded params are sent once and the timer cleared. TickBeforeDueIsNoop and BurstSendsLastOnce characterise it. |
| GameSessionSync.FirstObservationOnlyRecords | lib/hooks/useGameSessionSync.ts:119-122 | The first observation with a user only records the params and schedules nothing. |
| GameSessionSync.ObservationSchedulesIffChanged | lib/hooks/useGameSessionSync.ts:110-118 | A later observation changes the state if and only if score, streak or max streak differ from the recorded ones, and then it schedules a sync. |
| GameSessionSync.Changed | lib/hooks/useGameSessionSync.ts:110-118 | The effect's change test: the recorded score, streak or max streak differ from the current ones (`!==`). ObservationSchedulesIffChanged characterises it. |
| GameSessionSync.NoUserNoSync | lib/hooks/useGameSessionSync.ts:98-133 | Without a user id, neither the effect nor `manualSync` does anything. |
| GameSessionSync.BurstKeepsLast | lib/hooks/useGameSessionSync.ts:76-94 | After a burst of `syncScore` calls, only the last params are pending, due 1000 ms after the last call. Nothing has been sent. |
| GameSessionSync.TickBeforeDueIsNoop | lib/hooks/useGameSessionSync.ts:87-91 | Before the timer is due, time passing changes nothing. |
| GameSessionSync.BurstSendsLastOnce | lib/hooks/useGameSessionSync.ts:76-94 | After a burst, once the timer is due, exactly the last params are sent, and only once. |
| GameSessionSync.DebounceExample | lib/hooks/useGameSessionSync.ts:86-91 | Three syncs 200 ms apart followed by time passing send only the third. |
| GameSessionSync.FireThenSettle | lib/hooks/useGameSessionSync.ts:42-64 | A send followed by its success keeps the optimistic entry. One followed by its failure restores the previous entry when there was one. |
| GameSessionSync.RetryDelay | lib/hooks/useGameSessionSync.ts:72 | The retry delay lies between 1000 and 30000 ms and is 1000 for the first retry. |
| GameSessionSync.RetryDelayMonotone | lib/hooks/useGameSessionSync.ts:72 | Later retries never wait less. |
| GameSessionSync.SendWithRetry | lib/hooks/useGameSessionSync.ts:71-72 | A send makes at most three attempts and stops at the first success. It reports failure only after three failures, and waits `RetryDelay(i)` after failed attempt `i`. |
| GameSessionSync.SessionSync.constructor | lib/hooks/useGameSessionSync.ts:34-35 | No timer, no recorded params, nothing sent or in flight. |
| GameSessionSync.SessionSync.SyncScore | lib/hooks/useGameSessionSync.ts:76-94 | The new state is Scheduled of the old one. |
| GameSessionSync.SessionSync.Observe | lib/hooks/useGameSessionSync.ts:97-129 | The new state is the effect's transition of the old one. |
| GameSessionSync.SessionSync.ManualSync | lib/hooks/useGameSessionSync.ts:132-141 | The new state is the manual sync's transition of the old one. |
| GameSessionSync.SessionSync.Cleanup | lib/hooks/useGameSessionSync.ts:144-150 | The new state is CleanedUp of the old one. |
| GameSessionSync.SessionSync.Tick | lib/hooks/useGameSessionSync.ts:87-91 | The new state is the timer transition of the old one. |
| GameSessionSync.SessionSync.Settle | lib/hooks/useGameSessionSync.ts:58-64 | The new state is Settled of the old one. |
| JsValue.Get | lib/integrations/openrouter/questions.ts:75 | `v?.key` is the object's own property, or `undefined` for a missing key or a non-object. |
| JsValue.Coalesce | lib/integrations/openrouter/questions.ts:75 | `??` takes the fallback exactly for `null` and `undefined`. |
| JsValue.Or | lib/integrations/openrouter/questions.ts:78 | `\|\|` takes the fallback exactly for falsy values. |
| JsValue.NatToStringRoundTrip | lib/integrations/openrouter/questions.ts:78 | The decimal text `String(n)` writes for a number reads back as that number. |
| JsValue.ToJsString | lib/integrations/openrouter/questions.ts:78 | `String(v)`: decimal numbers, `null`, `undefined`, booleans, strings as they are, arrays joined with `,`, and `[object Object]`. It is missing, standing for the TypeError, exactly when StringThrows holds. An object with an own `toString` member cannot be converted, nor can an array holding such a value. |
| JsValue.JoinElements | lib/integrations/openrouter/questions.ts:78 | `items.join(",")` as `String` of an array uses it. It throws exactly when converting some element throws. |
| JsText.Lower | lib/game/difficulty.ts:17 | `toLowerCase` maps each ASCII capital to its small letter and keeps every other character. |
| JsText.LowerIgnoresCase | lib/game/difficulty.ts:17 | Lower-casing after upper-casing, or twice, is lower-casing once. |
| JsText.UpperUnits | components/ui/Avatar.tsx:41 | `toUpperCase` maps each small ASCII letter to its capital and keeps every other code unit. |
| GeneratedQuestion.MonaLisaWellFormed | lib/integrations/openrouter/questions.ts:99-105 | The fallback has four string options and index 0, "Leonardo da Vinci". |
| GeneratedQuestion.NormalisedOption | lib/integrations/openrouter/questions.ts:77-79 | A string option stays. Otherwise its truthy `text` is taken, else its truthy `option`, else `String(opt)`. The result is missing, standing for the TypeError, exactly when that last `String(opt)` throws. |
| GeneratedQuestion.NormalisedOptions | lib/integrations/openrouter/questions.ts:76-80 | An array is mapped item by item, keeping length and order, and the `map` throws exactly when some item throws. A non-array is left as it is. |
| GeneratedQuestion.FromParsed | lib/integrations/openrouter/questions.ts:74-89 | The normalised question built from a parsed value, with the `??` defaults. It throws exactly when normalising the options throws. DefaultsOnlyForMissing, FalsyValuesKept and NothingParsedIsMonaLisa characterise it. |
| GeneratedQuestion.OptionsKeepLengthAndStrings | lib/integrations/openrouter/questions.ts:76-80 | Normalising an array throws exactly when some item throws. Otherwise it keeps the number of options and every string option. |
| GeneratedQuestion.OptionBecomesString | lib/integrations/openrouter/questions.ts:78 | An option either makes `String(opt)` throw, exactly when `String` of it throws and it has no truthy `text` or `option`, or becomes a string. The exception is an object whose truthy `text` or `option` is not a string. |
| GeneratedQuestion.OptionThrowsExactly | lib/integrations/openrouter/questions.ts:78 | An option throws exactly in two cases: it is an object with an own `toString` member and no truthy `text` or `option`, or it is an array holding a value that cannot be converted. |
| GeneratedQuestion.ToStringMemberThrows | lib/integrations/openrouter/questions.ts:77-79 | The option `{"toString": 1}` throws, and so does a reply whose options are `[{"toString": 1}]`. |
| GeneratedQuestion.NormaliseIdempotent | lib/integrations/openrouter/questions.ts:76-80 | When every option normalises to a string, normalising does not throw, and normalising twice is normalising once. |
| GeneratedQuestion.DefaultsOnlyForMissing | lib/integrations/openrouter/questions.ts:82-89 | When the options do not throw, question, index and explanation take the parsed value unless it is `null`/`undefined`, and only then the default. |
| GeneratedQuestion.FalsyValuesKept | lib/integrations/openrouter/questions.ts:82-89 | When the options do not throw, falsy parsed values ("" , 0, false) are kept, because `??` is not `\|\|`. |
| GeneratedQuestion.NothingParsedIsMonaLisa | lib/integrations/openai/questions.ts:34-51 | A parsed value that is not an object (such as `null`) yields exactly the Mona Lisa question. |
| GeneratedQuestion.Saved | lib/integrations/openrouter/questions.ts:111-128 | A failed insert is an error. Otherwise the saved row has the inserted id and the generated question's four fields. |
| OpenRouterQuestions.PartsTextConcat | lib/integrations/openrouter/questions.ts:60-63 | The joined text of an array of parts is the joined text of its pieces, in order. It throws exactly when one of the pieces does. |
| OpenRouterQuestions.PartsTextSingle | lib/integrations/openrouter/questions.ts:61-63 | One part contributes `String` of its `text` exactly when its type is "text" and its text is truthy. It throws exactly when that `String` throws. |
| OpenRouterQuestions.PartsText | lib/integrations/openrouter/questions.ts:60-63 | The text of the array-content items whose type is "text" with a truthy text, joined in order. It is missing exactly when `join` throws converting one of those texts. PartsTextConcat and PartsTextSingle characterise it. |
| OpenRouterQuestions.ParsedContent | lib/integrations/openrouter/questions.ts:48-72 | Falsy content gives nothing. So does an array with a missing item, a text that cannot be converted, or no text at all, and so does text that does not parse. Otherwise string or joined array text is parsed, and other content is taken as is. StringContentParsed, ArrayContentJoined and ErrorsGiveFallback characterise it. |
| OpenRouterQuestions.Generate | lib/integrations/openrouter/questions.ts:16-94 | `generateTriviaQuestion` returns the fallback when OpenRouter is unavailable, the send fails, the content gives nothing or normalising the options throws. Otherwise it returns FromParsed of the parsed content. GenerateIsFallbackOrParsed states the two outcomes. |
| OpenRouterQuestions.UnavailableGivesFallback | lib/integrations/openrouter/questions.ts:22-25 | Without OpenRouter, the Mona Lisa question is returned. |
| OpenRouterQuestions.StringContentParsed | lib/integrations/openrouter/questions.ts:56-93 | Non-empty string content is parsed and normalised. Content that does not parse, or whose options throw, gives the fallback. |
| OpenRouterQuestions.ArrayContentJoined | lib/integrations/openrouter/questions.ts:58-93 | Array content is reduced to its joined text parts, which are parsed and normalised, with the fallback if normalising throws. |
| OpenRouterQuestions.ErrorsGiveFallback | lib/integrations/openrouter/questions.ts:48-93 | All of these give the fallback: a failed send, falsy content, and an array with no text, with a text that `join` cannot convert, or with a missing item. So does parsed content whose options throw. |
| OpenRouterQuestions.GenerateIsFallbackOrParsed | lib/integrations/openrouter/questions.ts:16-94 | The generator returns either the fallback or the normalisation of what the content parsed to, when that normalisation does not throw. |
| OpenRouterQuestions.ToStringOptionGivesFallback | lib/integrations/openrouter/questions.ts:77-93 | A reply whose options are `[{"toString": 1}]` gives the fallback, because the catch turns the TypeError into it. |
| OpenRouterQuestions.GenerateAndSave | lib/integrations/openrouter/questions.ts:111-128 | The call fails exactly when the insert fails. Otherwise it returns the inserted id and the generated fields. |
| OpenAIQuestions.EmptyContentAllDefaults | lib/integrations/openai/questions.ts:33-51 | Missing or empty content parses as `null`, so the result is the all-defaults question. |
| OpenAIQuestions.Parsed | lib/integrations/openai/questions.ts:34 | Content that is missing or empty stands for `null`. Other content is `JSON.parse` of it. |
| OpenAIQuestions.Generate | lib/integrations/openai/questions.ts:11-52 | `generateTriviaQuestion` for OpenAI. A failed request, unparseable content and a throwing `String(opt)` are errors. Empty content parses as `null`. Otherwise the result is FromParsed. ErrorsPropagate states both directions. |
| OpenAIQuestions.ErrorsPropagate | lib/integrations/openai/questions.ts:17-42 | The generator fails exactly when one of three things happens: the request fails, non-empty content does not parse, or normalising the parsed options throws. Otherwise it returns the normalised parsed object. |
| OpenAIQuestions.UnlikeOpenRouter | lib/integrations/openai/questions.ts:34 | On content that does not parse, OpenAI throws where OpenRouter returns the fallback. |
| OpenAIQuestions.ToStringOptionUnlikeOpenRouter | lib/integrations/openai/questions.ts:38-42 | A reply whose options are `[{"toString": 1}]` is an error here, where OpenRouter returns the fallback. |
| OpenAIQuestions.GenerateAndSave | lib/integrations/openai/questions.ts:54-71 | A generation error propagates. Otherwise the result is the saved row of the generated question. |
| QuestionFetcher.AcceptExactly | lib/game/questionFetcher.ts:50-65 | A reply is accepted if and only if its text is truthy and its options are an array of 4 or 5. It keeps text, options and index, takes a fresh id only for a falsy id, and `null` for a falsy explanation. |
| QuestionFetcher.IndexNotChecked | lib/game/questionFetcher.ts:50-63 | An out-of-range correct index (7 of 4 options) passes validation unchanged. |
| QuestionFetcher.FallbacksWellFormed | lib/game/questionFetcher.ts:90-116 | The three fallback questions each have four string options, a correct index inside them and a truthy text. |
| QuestionFetcher.FetchQuestion | lib/game/questionFetcher.ts:24-81 | It makes at least 1 and at most max(1, `retries`) attempts, waiting 1000·n ms after failed attempt n. Every earlier attempt failed without an abort. It returns the accepted reply of the last attempt, or otherwise the picked fallback, and then the retries were used up or the last failure was an abort. |
| QuestionFetcher.DefaultFetch | lib/game/questionFetcher.ts:3-72 | With the default of 3 retries, at most 3 attempts are made, with waits of 1000 then 2000 ms. |
| QuestionFetcher.AbortNotRetried | lib/game/questionFetcher.ts:69 | A first attempt that times out is not retried: one attempt, then a fallback. |
| QuestionFetcher.Accept | lib/game/questionFetcher.ts:47-65 | The validation and mapping of one reply; AcceptExactly states it in both directions. |
| QuestionFetcher.Fallbacks | lib/game/questionFetcher.ts:90-116 | The three fallback questions, each with the fresh id; FallbacksWellFormed states their shape. |
| QuestionProvider.IsProviderAvailable | lib/game/questionProvider.ts:23-31 | Each known provider is available exactly when its client is; an unknown name never is. |
| QuestionProvider.Other | lib/game/questionProvider.ts:45 | The alternative to OpenRouter is OpenAI, and to anything else OpenRouter. |
| QuestionProvider.ChoiceCases | lib/game/questionProvider.ts:37-55 | It chooses the configured provider when available, else the alternative when that is available, else the configured one. |
| QuestionProvider.ChosenIsAvailable | lib/game/questionProvider.ts:37-55 | With a known configured provider and at least one client, the chosen provider is available. |
| QuestionProvider.ChosenIsKnown | lib/game/questionProvider.ts:37-55 | With a known configured provider, the choice is always OpenRouter or OpenAI. |
| QuestionProvider.GetAvailableProvider | lib/game/questionProvider.ts:37-55 | The configured provider when available, else the other when that is available, else the configured one; ChoiceCases, ChosenIsAvailable and ChosenIsKnown characterise it. |
| Leaderboard.Compare | lib/supabase/realtime.ts:85-99 | The comparator on the `\|\| 0` keys, descending: negative exactly when the first row ranks higher, zero exactly when both keys tie. |
| Leaderboard.AsWrittenIsInconsistent | lib/supabase/realtime.ts:85-99 | The comparator as written is not a consistent order. A null-score row ties with two rows it should separate, while those two rows are ordered. |
| Leaderboard.AsWrittenDiffersOnlyOnNullVersusZero | lib/supabase/realtime.ts:86-98 | The written comparator agrees with the intended one except when one primary key is `null` and the other 0. |
| Leaderboard.CompareIsConsistent | lib/supabase/realtime.ts:85-99 | The intended comparator is antisymmetric, total and transitive: a lexicographic order on (primary, secondary). |
| Leaderboard.Insert | lib/supabase/realtime.ts:85 | Inserting into a sorted list adds exactly the new row (as a multiset). |
| Leaderboard.Sort | lib/supabase/realtime.ts:85 | The sort is a permutation of its input. |
| Leaderboard.InsertRanked | lib/supabase/realtime.ts:85-99 | Inserting into a ranked list keeps it ranked. |
| Leaderboard.SortRanked | lib/supabase/realtime.ts:85-99 | The sorted rows are ranked by the chosen key, then the other key, descending. |
| Leaderboard.InsertStable | lib/supabase/realtime.ts:85 | Insertion keeps rows with equal keys in their input order. |
| Leaderboard.SortStable | lib/supabase/realtime.ts:85 | The sort with the intended comparator is stable: rows with equal keys keep their input order, as `Array.prototype.sort` guarantees for a consistent comparator. |
| Leaderboard.Filled | lib/supabase/realtime.ts:105-111 | An entry takes the row's id and its numbers with `\|\| 0`, and "Unknown" for a missing name. |
| Leaderboard.Top | lib/supabase/realtime.ts:102 | `slice(0, 10)` keeps the first min(10, n) rows. |
| Leaderboard.FillAll | lib/supabase/realtime.ts:105-111 | Every row is filled in, in order. |
| Leaderboard.FailuresGiveEmpty | lib/supabase/realtime.ts:77-115 | A query error, no data or an exception gives the empty list. |
| Leaderboard.TopTenOfRanked | lib/supabase/realtime.ts:85-111 | The result holds min(10, n) entries, which are the first sorted rows filled in, and each comes from an input row. |
| Leaderboard.SortKeepsRows | lib/supabase/realtime.ts:85 | Every sorted row is one of the input rows. |
| Leaderboard.FilledRanked | lib/supabase/realtime.ts:85-111 | The output is in descending order of the chosen key with the other key breaking ties. |
| Leaderboard.ScoreOrder | lib/supabase/realtime.ts:86-91 | By default, scores descend and equal scores have descending max streaks. |
| Leaderboard.StreakOrder | lib/supabase/realtime.ts:92-97 | By streak, max streaks descend and equal ones have descending scores. |
| Leaderboard.GetLeaderboardWithUsers | lib/supabase/realtime.ts:64-116 | The model's leaderboard: the rows sorted with the intended comparator, the first ten kept and filled in, and [] on any failure; TopTenOfRanked, FilledRanked and FailuresGiveEmpty characterise it. |
| Leaderboard.CompareAsWritten | lib/supabase/realtime.ts:85-99 | The comparator exactly as written, with `!==` on the raw keys; AsWrittenIsInconsistent and AsWrittenDiffersOnlyOnNullVersusZero characterise it. |
| Leaderboard.SortAsWritten | lib/supabase/realtime.ts:85 | The stable insertion sort run with the comparator as written. |
| Leaderboard.InsertAsWrittenAgrees | lib/supabase/realtime.ts:85-99 | With no null-versus-0 pair of primary keys, inserting with the written comparator gives the same list as with the intended one. |
| Leaderboard.SortAsWrittenAgrees | lib/supabase/realtime.ts:85-99 | With no null-versus-0 pair of primary keys among the rows, sorting with the written comparator gives exactly the intended sort. |
| Leaderboard.LeaderboardAsWrittenAgrees | lib/supabase/realtime.ts:64-116 | On such rows, the leaderboard computed with the written comparator equals GetLeaderboardWithUsers, so every ordering lemma above holds for the program as written. |
| LocalStorage.ItemRead | lib/storage/userCache.ts:16-17 | `getItem(key)` returns the stored string, `null` for a missing key, or throws. |
| LocalStorage.ItemWritten | lib/storage/userCache.ts:38 | `setItem` stores the value under the key or throws and changes nothing. |
| LocalStorage.ItemRemoved | lib/storage/userCache.ts:54-55 | `removeItem` deletes the key or throws and changes nothing. |
| LocalStorage.WriteThenRead | lib/storage/userCache.ts:16-38 | A written key reads back as written; every other key reads as before. |
| LocalStorage.RemoveThenRead | lib/storage/userCache.ts:16-55 | A removed key reads back as `null`; every other key reads as before. |
| LocalStorage.Storage.GetItem | lib/storage/userCache.ts:16-17 | Returns ItemRead of the current state. |
| LocalStorage.Storage.SetItem | lib/storage/userCache.ts:38 | Reports whether `setItem` succeeded; the new state is ItemWritten, or unchanged on a throw. |
| LocalStorage.Storage.RemoveItem | lib/storage/userCache.ts:54-55 | Reports whether `removeItem` succeeded; the new state is ItemRemoved, or unchanged on a throw. |
| SettingsCache.NoEntryGivesDefaults | lib/storage/settingsCache.ts:17-29 | With no window, a failing read, no entry or an empty one, the defaults are returned. |
| SettingsCache.UnparseableGivesDefaults | lib/storage/settingsCache.ts:24-29 | A stored text that does not parse (or is "null") gives the defaults. |
| SettingsCache.StoredObjectOverlaid | lib/storage/settingsCache.ts:24-25 | A stored object is the defaults overlaid with its members. |
| SettingsCache.OverlaidConcat | lib/storage/settingsCache.ts:25 | Spreading members in two parts is spreading them in one go. |
| SettingsCache.Overlaid | lib/storage/settingsCache.ts:25 | `{ ...defaultSettings, ...parsed }`: the parsed members are applied in order, so a repeated key takes its last value. Unknown keys are skipped. A settings member of the wrong type makes the result missing. StoredObjectOverlaid, OverlaidConcat and OverlaidUpdated characterise it. |
| SettingsCache.OverlaidUpdated | lib/storage/settingsCache.ts:39-41 | The members `saveSettingsToCache` writes overlay the defaults to exactly the current settings with the patch applied. |
| SettingsCache.SaveThenGet | lib/storage/settingsCache.ts:35-45 | When storage works, reading after a save gives the previous settings with the patch applied. |
| SettingsCache.SaveEmptyKeeps | lib/storage/settingsCache.ts:35-45 | Saving an empty patch leaves what is read unchanged. |
| SettingsCache.UndefinedResetsToDefault | lib/storage/settingsCache.ts:40-41 | A field given as `undefined` is dropped by `JSON.stringify`, so it reads back as its default. |
| SettingsCache.ClearThenGet | lib/storage/settingsCache.ts:50-58 | After a successful clear, the defaults are read. |
| SettingsCache.SaveIsSafe | lib/storage/settingsCache.ts:35-45 | A save never throws. It changes nothing without a window or when `setItem` fails, and it never touches another key. |
| SettingsCache.ClearIsSafe | lib/storage/settingsCache.ts:50-58 | A clear never throws. It changes nothing without a window or when `removeItem` fails, and it never touches another key. |
| SettingsCache.GetSettings | lib/storage/settingsCache.ts:17-30 | `getSettingsFromCache` on a storage state; NoEntryGivesDefaults, UnparseableGivesDefaults and StoredObjectOverlaid characterise it. |
| SettingsCache.SavedSettings | lib/storage/settingsCache.ts:35-45 | `saveSettingsToCache` on a storage state; SaveThenGet, SaveIsSafe and UndefinedResetsToDefault characterise it. |
| SettingsCache.ClearedSettings | lib/storage/settingsCache.ts:50-58 | `clearSettingsCache` on a storage state; ClearThenGet and ClearIsSafe characterise it. |
| SettingsCache.GetSettingsFromCache | lib/storage/settingsCache.ts:17-30 | Returns the settings read from the current storage. |
| SettingsCache.SaveSettingsToCache | lib/storage/settingsCache.ts:35-45 | The new storage is the saved one. |
| SettingsCache.ClearSettingsCache | lib/storage/settingsCache.ts:50-58 | The new storage is the cleared one. |
| JsonText.HexDigitValue | lib/storage/settingsCache.ts:24-41 | A hex digit written by the encoder reads back as its value. |
| JsonText.EscapeCharParsed | lib/storage/settingsCache.ts:24-41 | Any character, escaped as `JSON.stringify` escapes it, reads back as itself. |
| JsonText.EscapeParsed | lib/storage/settingsCache.ts:24-41 | An escaped string reads back as itself, with the rest of the text left over. |
| JsonText.QuoteParsed | lib/storage/settingsCache.ts:24-41 | A quoted string reads back as itself. |
| JsonText.ScalarParsed | lib/storage/settingsCache.ts:24-41 | A string or boolean value reads back as itself. |
| JsonText.MemberParsed | lib/storage/settingsCache.ts:24-41 | A `"key":value` member reads back as itself. |
| JsonText.RestParsed | lib/storage/settingsCache.ts:24-41 | Comma-separated members followed by `}` read back as those members. |
| JsonText.ParseStringify | lib/storage/settingsCache.ts:24-41 | `JSON.parse(JSON.stringify(o))` gives back exactly the members of `o`, in order. |
| JsonText.Stringify | lib/storage/settingsCache.ts:41 | `JSON.stringify` of an object with string and boolean members, in the compact form; ParseStringify inverts it. |
| JsonText.Parse | lib/storage/settingsCache.ts:24 | `JSON.parse` for the compact objects Stringify writes; anything else reads as unparseable. ParseStringify states the round trip. |
| UserCacheStorage.GetExactly | lib/storage/userCache.ts:12-29 | A user is read exactly when a non-empty username is stored. It carries the stored id only when that id is non-empty. |
| UserCacheStorage.SaveWrites | lib/storage/userCache.ts:34-45 | A save writes the username, and the id only when it is truthy. |
| UserCacheStorage.SaveThenGet | lib/storage/userCache.ts:12-45 | A saved user with a name and id reads back as itself. |
| UserCacheStorage.SaveWithoutIdKeepsOldId | lib/storage/userCache.ts:39-41 | Saving a user without an id leaves the earlier user's id, which is read back with the new name. |
| UserCacheStorage.ClearThenEmpty | lib/storage/userCache.ts:50-67 | Clearing removes both keys, after which there is no user and `hasUserCache` is false. |
| UserCacheStorage.HasIffUsernameStored | lib/storage/userCache.ts:64-67 | `hasUserCache` is true exactly when a non-empty username is stored, which is when a user is read. |
| UserCacheStorage.NoWindowNoCache | lib/storage/userCache.ts:13-65 | Without a window there is no user and nothing is written or removed. |
| UserCacheStorage.GetUser | lib/storage/userCache.ts:12-29 | `getUserFromCache` on a storage state; GetExactly characterises it. |
| UserCacheStorage.SavedUser | lib/storage/userCache.ts:34-45 | `saveUserToCache` on a storage state; SaveWrites and SaveThenGet characterise it. |
| UserCacheStorage.ClearedUser | lib/storage/userCache.ts:50-59 | `clearUserCache` on a storage state; ClearThenEmpty characterises it. |
| UserCacheStorage.HasUser | lib/storage/userCache.ts:64-67 | `hasUserCache` on a storage state; HasIffUsernameStored characterises it. |
| UserCacheStorage.GetUserFromCache | lib/storage/userCache.ts:12-29 | Returns the user read from the current storage. |
| UserCacheStorage.SaveUserToCache | lib/storage/userCache.ts:34-45 | The new storage is the saved one. |
| UserCacheStorage.ClearUserCache | lib/storage/userCache.ts:50-59 | The new storage is the cleared one. |
| UserCacheStorage.HasUserCache | lib/storage/userCache.ts:64-67 | Returns whether the current storage holds a username. |
| UserStore.UserSet | lib/store/userStore.ts:46-61 | The store holds the user, authenticated. The cache is written only when the store did not already hold that user. |
| UserStore.UserCleared | lib/store/userStore.ts:66-73 | The store is reset and the cache cleared. |
| UserStore.SetUserIdempotent | lib/store/userStore.ts:49-53 | Setting the same user twice changes nothing the second time. |
| UserStore.InitializeCases | lib/store/userStore.ts:79-99 | Without a window or a cached user, the store is unchanged. Otherwise it holds the cached user. |
| UserStore.SetUserSurvivesReload | lib/store/userStore.ts:46-99 | A fresh store initialised from the cache after `setUser` holds the same user. |
| UserStore.ClearUserSurvivesReload | lib/store/userStore.ts:66-99 | A fresh store initialised after `clearUser` is logged out. |
| UserStore.UserInitialized | lib/store/userStore.ts:79-99 | `initializeFromCache`: adopt the cached user when there is a window and a cached user the store does not hold already; InitializeCases characterises it. |
| UserStore.Store.constructor | lib/store/userStore.ts:37-40 | The store starts unauthenticated with no name or id. |
| UserStore.Store.SetUser | lib/store/userStore.ts:46-61 | Store and storage become those of UserSet. |
| UserStore.Store.ClearUser | lib/store/userStore.ts:66-73 | Store and storage become those of UserCleared. |
| UserStore.Store.InitializeFromCache | lib/store/userStore.ts:79-99 | The store becomes the one initialised from the current storage. |
| UserSettingsStore.DefaultsAgree | lib/store/userSettingsStore.ts:36-39 | The store starts with exactly the cache's defaults. |
| UserSettingsStore.SettingsUpdated | lib/store/userSettingsStore.ts:75-78 | The cache is saved with the patch. In the store, given fields take their value and left-out fields stay. |
| UserSettingsStore.Merged | lib/store/userSettingsStore.ts:75-78 | Zustand's `set(patch)` on the store: given fields replaced, `undefined` ones made `undefined`, left-out ones kept. |
| UserSettingsStore.UpdateKeepsInStep | lib/store/userSettingsStore.ts:75-78 | When storage works and the store matched the cache, it still matches after any update without `undefined` fields. |
| UserSettingsStore.UndefinedLeavesStoreBehind | lib/store/userSettingsStore.ts:75-78 | An `undefined` field makes the store's field `undefined` while the cache reads back the default. |
| UserSettingsStore.InitializeAdoptsCache | lib/store/userSettingsStore.ts:84-99 | With a window, initialising makes the store hold what the cache reads. |
| UserSettingsStore.SettingsInitialized | lib/store/userSettingsStore.ts:84-99 | `initializeFromCache` on the store; InitializeAdoptsCache characterises it. |
| UserSettingsStore.Store.constructor | lib/store/userSettingsStore.ts:36-39 | The store starts with the default settings. |
| UserSettingsStore.Store.SetDifficulty | lib/store/userSettingsStore.ts:45-49 | Store and storage become SettingsUpdated with a difficulty-only patch. |
| UserSettingsStore.Store.SetTtsEnabled | lib/store/userSettingsStore.ts:55-59 | Store and storage become SettingsUpdated with a `tts_enabled`-only patch. |
| UserSettingsStore.Store.SetTtsVoice | lib/store/userSettingsStore.ts:65-69 | Store and storage become SettingsUpdated with a `tts_voice`-only patch. |
| UserSettingsStore.Store.UpdateSettings | lib/store/userSettingsStore.ts:75-78 | Store and storage become SettingsUpdated with the patch. |
| UserSettingsStore.Store.InitializeFromCache | lib/store/userSettingsStore.ts:84-99 | The store becomes the one initialised from the current storage. |
| StoreInitialization.Initialized | lib/hooks/useStoreInitialization.ts:16-28 | Once initialised, or without a window, nothing happens. Otherwise both stores load from the caches and the flag is set. |
| StoreInitialization.InitializeOnce | lib/hooks/useStoreInitialization.ts:17-27 | A second initialisation changes nothing, whatever the caches hold by then. |
| StoreInitialization.ResetReinitializes | lib/hooks/useStoreInitialization.ts:46-48 | After a reset, the next initialisation runs again and reloads the settings from the cache. |
| StoreInitialization.Reset | lib/hooks/useStoreInitialization.ts:46-48 | `resetStoreInitialization` clears the flag and keeps both stores. ResetReinitializes characterises it. |
| StoreInitialization.NoWindowNeverInitializes | lib/hooks/useStoreInitialization.ts:17 | Without a window, initialisation never runs, before or after a reset. |
| StoreInitialization.Initializer.constructor | lib/hooks/useStoreInitialization.ts:10 | The flag starts cleared. |
| StoreInitialization.Initializer.InitializeStores | lib/hooks/useStoreInitialization.ts:16-28 | Flag and stores become those of Initialized. |
| StoreInitialization.Initializer.UseStoreInitialization | lib/hooks/useStoreInitialization.ts:34-40 | Called in the component body, not in an effect. When there is a window and the flag is clear, it calls `initializeStores`, so the flag and both stores become those of Initialized. Otherwise nothing changes. |
| StoreInitialization.Initializer.ResetStoreInitialization | lib/hooks/useStoreInitialization.ts:46-48 | The flag is cleared. |
| Voices.GetDeepgramVoices | lib/integrations/deepgram/voices.ts:106-111 | With Deepgram available, the catalogue is returned; otherwise the empty list. |
| Voices.FindSpec | lib/integrations/deepgram/voices.ts:116-118 | The lookup finds nothing exactly when no voice has the id. Otherwise it finds the first voice with that id. |
| Voices.GetVoiceById | lib/integrations/deepgram/voices.ts:116-118 | `find` over the catalogue by id; GetVoiceByIdExact and LookupIsCaseSensitive characterise it. |
| Voices.IdsDistinct | lib/integrations/deepgram/voices.ts:12-100 | No two catalogue voices share an id. |
| Voices.CatalogueShape | lib/integrations/deepgram/voices.ts:12-100 | There are twelve voices, all English, and each `aura-` id uses the aura model. |
| Voices.GetVoiceByIdExact | lib/integrations/deepgram/voices.ts:116-118 | Looking up a catalogue voice's id gives exactly that voice. |
| Voices.IdsStartLowerCase | lib/integrations/deepgram/voices.ts:12-100 | Every id starts with a lower-case letter. |
| Voices.LookupIsCaseSensitive | lib/integrations/deepgram/voices.ts:116-118 | The lookup does not fold case: an upper-cased id finds nothing. |
| VoicePreviews.PreviewRead | lib/supabase/voicePreviews.ts:8-29 | The stored URL, or nothing for a missing row or a failing query. |
| VoicePreviews.PreviewSaved | lib/supabase/voicePreviews.ts:34-55 | The upsert sets the voice's URL and keeps every other row. A failing write is an error and changes nothing. |
| VoicePreviews.HasPreview | lib/supabase/voicePreviews.ts:60-63 | True exactly when the query works and a row exists, whatever its URL. |
| VoicePreviews.SaveThenGet | lib/supabase/voicePreviews.ts:12-55 | A saved URL reads back; other voices read as before. |
| VoicePreviews.SaveOverwrites | lib/supabase/voicePreviews.ts:36-45 | Saving twice for one voice is saving the second URL. |
| VoicePreviews.EmptyUrlStillPresent | lib/supabase/voicePreviews.ts:20-63 | A row with an empty URL counts as present for `hasVoicePreview`. |
| VoicePreviews.PreviewTable.GetVoicePreview | lib/supabase/voicePreviews.ts:8-29 | Returns PreviewRead of the table. |
| VoicePreviews.PreviewTable.SaveVoicePreview | lib/supabase/voicePreviews.ts:34-55 | The table becomes PreviewSaved's, or is unchanged when the write throws. |
| VoicePreviews.PreviewTable.HasVoicePreview | lib/supabase/voicePreviews.ts:60-63 | Returns HasPreview of the table. |
| VoicePreviewRoute.RequestedId | app/api/voice-preview/route.ts:10-15 | The `voiceId` query parameter, when it is present and non-empty. |
| VoicePreviewRoute.Handled | app/api/voice-preview/route.ts:8-42 | The route's response and the new table for one request; the five route lemmas below characterise it case by case. |
| VoicePreviewRoute.MissingIdIsBadRequest | app/api/voice-preview/route.ts:13-15 | A request without a voice id gets 400 and writes nothing. |
| VoicePreviewRoute.HitServedFromCache | app/api/voice-preview/route.ts:18-21 | A stored non-empty URL is served as cached and nothing is written. |
| VoicePreviewRoute.MissGeneratesAndSaves | app/api/voice-preview/route.ts:24-33 | On a miss, generated speech is saved and served as not cached. |
| VoicePreviewRoute.FailureIsServerError | app/api/voice-preview/route.ts:24-41 | A failed generation or save gives a server error. |
| VoicePreviewRoute.NextRequestHits | app/api/voice-preview/route.ts:18-33 | After a miss is generated and saved, the same request is a cache hit with the same URL. |
| VoicePreviewRoute.WritesOnlyRequestedVoice | app/api/voice-preview/route.ts:8-42 | A request never changes another voice's row. |
| VoicePreviewRoute.Get | app/api/voice-preview/route.ts:8-42 | The response and the new table are those of Handled. |
| UiAvatar.ToInt32 | components/ui/Avatar.tsx:30 | The 32-bit signed value congruent to the input modulo 2^32. |
| UiAvatar.ShiftLeft5 | components/ui/Avatar.tsx:30 | `x << 5` is the 32-bit signed value congruent to 32·x modulo 2^32. |
| UiAvatar.HashOf | components/ui/Avatar.tsx:28-31 | The loop's hash as a left fold of the step over the code units; GetAvatarColor's loop is proved against it and HashBounded bounds it. |
| UiAvatar.AvatarColor | components/ui/Avatar.tsx:15-33 | `getAvatarColor`; ColorChoice characterises it. |
| UiAvatar.ColorChoice | components/ui/Avatar.tsx:15-33 | No name gives the plain white class. A name gives one of the six gradients, chosen by \|hash\| mod 6, never the white class. |
| UiAvatar.HashBounded | components/ui/Avatar.tsx:28-31 | The hash's size grows at most linearly in the name's length. |
| UiAvatar.HashExactForShortNames | components/ui/Avatar.tsx:28-31 | Below 2^21 code units the hash stays under 2^53, so floating point computes it exactly. |
| UiAvatar.HashExamples | components/ui/Avatar.tsx:28-31 | "A" hashes to 65 and "AB" to 2081. |
| UiAvatar.ColorExamples | components/ui/Avatar.tsx:18-32 | "A" and "AB" both get the pink gradient. |
| UiAvatar.GetAvatarColor | components/ui/Avatar.tsx:15-33 | The loop computes the folded hash, and the colour is the one ColorChoice describes. |
| UiAvatar.Split | components/ui/Avatar.tsx:37 | Splitting always gives at least one part. |
| UiAvatar.PartsHaveNoSeparator | components/ui/Avatar.tsx:37 | No part contains whitespace (any ECMAScript `\s` unit), `_` or `-`. |
| UiAvatar.HeadsAreWordStarts | components/ui/Avatar.tsx:37-39 | The first characters of the non-empty parts are exactly the name's word starts, in order. |
| UiAvatar.NoWordStartsIffAllSeparators | components/ui/Avatar.tsx:36-41 | A name has no word start exactly when every character is a separator. |
| UiAvatar.InitialsWith | components/ui/Avatar.tsx:36-41 | The initials are the first two word starts, upper-cased. |
| UiAvatar.Initials | components/ui/Avatar.tsx:36-41 | The ui avatar's initials, with `[\s_-]` as separator; InitialsAreWordStarts and FallbackIffNoWord characterise them. |
| UiAvatar.InitialsAreWordStarts | components/ui/Avatar.tsx:36-41 | The initials are the first one or two word starts, each upper-cased, so at most two code units under the ASCII-only case mapping (JavaScript's full mapping can lengthen a unit: `"ß"` upper-cases to `"SS"`). |
| UiAvatar.FallbackIffNoWord | components/ui/Avatar.tsx:50-52 | The fallback icon shows exactly when name is missing or has no word start. |
| UiAvatar.InitialsExample | components/ui/Avatar.tsx:36-41 | "a_b" gives "AB". |
| GlobalAvatar.GlobalInitialsShape | components/global/Avatar.tsx:8-13 | The global avatar's initials are the first two space-separated word starts, upper-cased, so at most two code units under the ASCII-only case mapping (JavaScript's full mapping upper-cases `"ß"` to `"SS"`). |
| GlobalAvatar.GlobalInitials | components/global/Avatar.tsx:8-13 | The global avatar's initials, split on a single space; GlobalInitialsShape and GlobalFallbackIffBlank characterise them. |
| GlobalAvatar.GlobalFallbackIffBlank | components/global/Avatar.tsx:17 | Its fallback shows exactly when the name is missing or all spaces. |
| GlobalAvatar.UnderscoreNotASeparator | components/global/Avatar.tsx:9 | The two avatars disagree on "a_b": the global one gives "A", the ui one "AB". |

## Left out

- SettingsCache.GetSettings: reads the settings cache's JSON only in the compact layout the app itself writes:
  - Only the compact form `JSON.stringify` writes for string and boolean members is decoded. Other JSON texts count as unparseable and give the defaults, which the source would instead overlay. This covers whitespace, numbers, nesting, arrays at top level and duplicate keys.
  - A stored member whose value is `null` or has the wrong type also counts as unparseable, where the source would carry it into the settings.
  - Members with unknown keys are dropped rather than kept in the result.
- OpenRouterQuestions.ParsedContent: object content is taken as what `JSON.parse(JSON.stringify(content))` returns, which is the identity on the JSON values modelled.
- `JSON.parse` of model replies is a function parameter, not a decoder.
- Numbers are unbounded integers. There are no fractions, NaN or Infinity, and points and scores are whole numbers.
- UiAvatar.HashOf: the source computes the hash in floating point. The model's integers agree with it only while the hash stays below 2^53, which HashExactForShortNames proves for names under 2^21 code units.
- Case mapping (`toLowerCase`, `toUpperCase`) covers ASCII only. Other letters keep their case.
- Frameworks:
  - React render timing.
  - React Query's `cancelQueries` and `invalidateQueries`.
  - Supabase realtime subscriptions.
  - The avatars' size classes and JSX.
- Console logging.
- JavaScript's inherited prototype properties on `?.` lookups.
- The database's `updated_at` timestamps, the leaderboard query's `.limit(100)` (the model sorts whatever rows the query returns) and the column default of `max_streak`, which is unknown and modelled as null.
- Prompt texts, model names and the difficulty label sent to the models.
- I/O is modelled as parameters:
  - success or failure of Supabase reads and writes;
  - `fetch` outcomes, including the 30-second abort;
  - the `generateSpeech` result;
  - timer instants, for `setTimeout`, `clearTimeout` and the retry waits;
  - `Math.random()` and `crypto.randomUUID()`;
  - whether `window` exists;
  - environment configuration.
- Leaderboard.GetLeaderboardWithUsers: the model sorts with the corrected comparator Compare, not the one written in lib/supabase/realtime.ts:85-99. The ordering and stability lemmas (SortRanked, SortStable, FilledRanked, ScoreOrder, StreakOrder, TopTenOfRanked) describe the intended ranking. The written comparator is CompareAsWritten, as recorded under Findings. LeaderboardAsWrittenAgrees proves the written function gives the same list whenever no row with a `null` primary key shares the query with one whose primary key is 0. When such a pair exists, the written comparator is inconsistent and ECMAScript leaves the resulting order implementation-defined, so the model promises nothing about the source's order there.
- QuestionFetcher.FetchQuestion: `difficulty` and `excludeQuestionIds` only reach the request body, so they do not appear in the model.
- VoicePreviewRoute.Handled: `InternalError` stands for the outer `catch`, that is, a request URL that cannot be parsed. The generator call itself is its outcome parameter.
- RealtimeGame.ReportIdempotent: holds only when the row existed or the max-streak hint is at least the streak. InsertThenRepeatRaisesMaxStreak shows the report that breaks it otherwise.
- RealtimeGame.ReportAllMerges: the bound on the max streak is stated only when the row existed or the first hint is at least its streak.
- GameSessionSync.SendWithRetry: React Query's retry loop is modelled as a method over the attempt outcomes, and does not model the cancellation of in-flight retries.
- Concurrency between overlapping requests to the routes, and between the sync hook's mutations, is not modelled: each operation is one atomic step.

## Findings

| source | as written | input that shows it | evidently intended | confidence | as-written member | corrected member |
|---|---|---|---|---|---|---|
| lib/supabase/realtime.ts:85-99 | The comparator tests the raw primary keys with `!==` and only then subtracts their `\|\| 0` values, so a `null` key against a `0` key returns 0 without comparing the secondary key. | Sort by score on NullScore (score null, max streak 5), LowStreak (score 0, max streak 1) and HighStreak (score 0, max streak 9). NullScore ties with both, but LowStreak sorts after HighStreak, so the comparator is not a consistent order and the leaderboard order depends on the input order. | Compare the `\|\| 0` values and break ties with the other key. | not executed | Leaderboard.AsWrittenIsInconsistent | Leaderboard.CompareIsConsistent |
