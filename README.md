# Crypto trivia mini-app: question supply and quiz state

This project models the core of a crypto-trivia mini-app in Dafny and proves
properties of that model. The core has four parts:

- **The batch adapter over the generative provider** (`app/lib/gemini-api.ts`).
  It plans (category, year) slots by spreading `count` over four categories,
  with the remainder going to the earliest ones. Slot j of a category targets
  the year 2024 − j·step, where the step is 1 for "easy", 2 for "medium" and
  3 otherwise, and slots before 2009 are dropped. It asks for every slot in
  one request and pulls a JSON payload out of the reply with three patterns
  tried in order. It keeps the candidates that pass validation and asks one
  backup request for any shortfall. Finally it shuffles and cuts the list to
  `count`.
- **The question endpoint** (`app/api/generate-questions/route.ts`). `POST`
  checks its configuration, then reads stored questions cache-first. If
  enough stored rows match the difficulty, it returns them. Otherwise it
  generates the shortfall, stores it, and returns the stored rows followed by
  the new questions. A query error or an exception leads to a fresh
  generation of the full count. The endpoint has its own per-slot generator,
  which builds deterministic ids `category-year-j` and
  `category-year-backup-i`.
- **The built-in bank** (`app/lib/trivia-data.ts`). It holds twenty
  questions, five per category. `getRandomQuestions` makes a per-category
  balanced random selection from it. `calculateCryptoEntryYear` maps a score
  to an "entry year".
- **The quiz store** (`app/lib/store.ts`). The state is the question list,
  the current index, one answer slot per question, the score, the completion
  flag and the entry year. The actions are initialize, answer, next, reset
  and calculate-results.

The model is organised as follows:

- **Imperative code is modelled with methods.** Every loop in the source is
  a method with a loop, proved against a specification function: slot
  planning, the `for…of` over parsed items, the per-slot generator and the
  category selection.
- **The quiz store is a class.** Its fields are the store's fields and its
  methods are the store's actions. The database is a class `TriviaTable`
  whose `rows` the insert updates.
- **Foreign calls are parameters.** The generative provider, `JSON.parse`,
  the uuid generator and the clock are passed in as functions or values.
  Each provider reply is an `Option<string>`, where `None` means the call
  threw or returned no text. `JSON.parse` returns a `Parsed` value:
  unparseable, an array of candidates, or a single value. A candidate
  record has one `Field` per property: absent, present with the wrong type,
  or present with a value.
- **Randomness is nondeterministic choice.** Shuffles, random backup years
  and uuid suffixes are left open. A shuffle is specified only as a
  rearrangement; a random year only by its range.

Modules:

| module | file | role |
|---|---|---|
| `Wrappers` | wrappers.dfy | `Option` and `Result` |
| `Text` | text.dfy | decimal rendering of numbers, substring search, and the dash-split lemma behind id uniqueness |
| `Slots` | slots.dfy | shares, year steps, plans, the 2009 cut-off |
| `Questions` | questions.dfy | the question record, the `Conforms` contract, distinct ids |
| `Shuffling` | shuffling.dfy | the random-comparator sort as a nondeterministic permutation |
| `Payload` | payload.dfy | the three match patterns, fence stripping, trimming, reply parsing |
| `GeminiApi` | gemini_api.dfy | the batch adapter |
| `GenerateQuestionsRoute` | route.dfy | the endpoint, the row store and the per-slot generator |
| `TriviaData` | trivia_data.dfy | the bank, the selection and the entry year |
| `QuizStore` | store.dfy | the quiz state machine |

## Model

| member | source | states |
|---|---|---|
| Slots.ShareSum | app/lib/gemini-api.ts:57-68 | the four per-category counts `count/4 + (i < count%4 ? 1 : 0)` add up to exactly `count` |
| Slots.ShareBalanced | app/lib/gemini-api.ts:57-68 | per-category counts differ by at most one, and an earlier category never gets fewer |
| Slots.YearStep | app/lib/gemini-api.ts:50-52 | the year step is between 1 and 3, and it is 1 exactly for "easy" and 2 exactly for "medium" |
| Slots.CategorySlotsAt | app/lib/gemini-api.ts:70-71 | slot j of a category targets the year 2024 − j·step and has rank j |
| Slots.CategoryYearsDecrease | app/lib/gemini-api.ts:70-71 | within a category the target years strictly decrease |
| Slots.InEpoch | app/lib/gemini-api.ts:73-76 | the filtered plan keeps only slots from the original plan whose year is 2009 or later |
| Slots.FullPlanShape | app/lib/gemini-api.ts:64-78 | before the filter the plan has exactly `count` pairwise distinct slots; each names a listed category and targets 2024 − rank·step |
| Slots.KeepsPrefix | app/lib/gemini-api.ts:70-76 | when the kept slots are exactly those before some rank, the 2009 filter keeps exactly the category's slots before that rank |
| Slots.EpochKeepsPrefix | app/lib/gemini-api.ts:70-76 | the 2009 filter keeps exactly the first min(n, 15/step + 1) slots of a category |
| Slots.EpochPlanBounds | app/lib/gemini-api.ts:73-76 | the filtered plan has at most `count` slots, each of a listed category with a year in [2009, 2024] |
| Slots.EpochPlanLength | app/lib/gemini-api.ts:64-78 | the filtered plan's length is the sum over categories of min(share, 15/step + 1) |
| Text.FindFrom | app/lib/gemini-api.ts:140-142 | the leftmost occurrence of a pattern at or after a position, with no occurrence before it (`indexOf`, used by the lazy patterns) |
| Payload.Trim | app/lib/gemini-api.ts:147 | the result is a slice of the input with only JavaScript whitespace cut from either end; it has no leading or trailing whitespace, and already-trimmed text is unchanged |
| Payload.StripFences | app/lib/gemini-api.ts:147 | removing the three-backtick fences shortens the text by a multiple of three, removes only backticks and keeps every other character in order |
| Payload.StripFencesLeavesNone | app/lib/gemini-api.ts:147 | the stripped text holds no three-backtick fence |
| Payload.StripFencesNoFence | app/lib/gemini-api.ts:147 | text without a fence is left unchanged |
| Payload.MatchJsonFence | app/lib/gemini-api.ts:140 | a match sits in the text at the first json-tagged opener; its whole is opener, group and closing fence, with no closing fence inside the group (the lazy body); no match means no opener is followed by a closer |
| Payload.MatchFence | app/lib/gemini-api.ts:141 | the same for an untagged fence pair: the match sits at the first fence and its group runs to the next fence |
| Payload.MatchBareArrayFrom | app/lib/gemini-api.ts:142 | a match starts with '[' and ends with ']'; no match means no position at or after the start begins a '[', optional whitespace, '{' … '}', optional whitespace, ']' run |
| Payload.BareArrayLeftmost | app/lib/gemini-api.ts:142 | a match lies in the text at the leftmost position (from the start) where that run begins, and spans exactly the run found there |
| Payload.FirstMatch | app/lib/gemini-api.ts:139-142 | the json-tagged fence wins when present, then the plain fence, then exactly the bare pattern of the requested shape; there is no match exactly when none of the three matches |
| Payload.MatchBareObject | app/api/generate-questions/route.ts:269 | a match lies in the text at the first '{' and runs to the first '}' after it, with no '}' inside; no match means no '{' is followed by a '}' |
| Payload.ExtractPayload | app/lib/gemini-api.ts:139-147 | a payload exists exactly when one of the three patterns matches; it is trimmed and holds no fence |
| Payload.FencedRoundTrip | app/lib/gemini-api.ts:139-147 | a fence-free trimmed body wrapped in a json fence is extracted exactly |
| Payload.PlainFencedRoundTrip | app/lib/gemini-api.ts:139-147 | a trimmed body without backticks wrapped in plain fences is extracted exactly, for either bare shape |
| Payload.BareArrayRoundTrip | app/lib/gemini-api.ts:139-147 | in a text without backticks, the payload is exactly the bare-array run that starts at the first '[' |
| Payload.BareObjectAt | app/api/generate-questions/route.ts:266-269 | with the first '{' at p and the first '}' after it at q, the bare-object match is text[p..q+1] at p |
| Payload.BareObjectRoundTrip | app/api/generate-questions/route.ts:266-274 | in a text without backticks, the endpoint's payload is exactly the span from the first '{' to the first '}' after it |
| Payload.PlainTextHasNoPayload | app/lib/gemini-api.ts:139-144 | text with no backtick, '[' or '{' yields no payload |
| Payload.FencedReplyParses | app/lib/gemini-api.ts:130-147 | a reply that is a trimmed, fence-free body in a json fence is parsed from exactly that body |
| Payload.PlainReplyUnparseable | app/lib/gemini-api.ts:130-147 | a thrown call, an empty reply, or a reply with no backtick, '[' or '{' is unparseable |
| GeminiApi.IdSuffix | app/lib/gemini-api.ts:167 | the uuid prefix has length min(8, \|uuid\|) and is a prefix of the uuid |
| GeminiApi.AcceptPrimary | app/lib/gemini-api.ts:154-173 | an accepted candidate is exactly the JSON form of the question built; that question conforms, has a non-empty text, and has the id `category-year-suffix` |
| GeminiApi.PrimaryAcceptance | app/lib/gemini-api.ts:154-173 | a question's JSON form is accepted if and only if it conforms and its text is non-empty; the built record copies every field and sets only the id |
| GeminiApi.AcceptBackup | app/lib/gemini-api.ts:278-302 | an accepted candidate conforms and its fields are copied; its year is the candidate's non-zero year, or 2020 when the year is absent or zero |
| GeminiApi.BackupAcceptance | app/lib/gemini-api.ts:278-291 | a record with a question's fields passes the schema if and only if the question conforms and the year is absent or numeric; an empty text passes |
| GeminiApi.ChecksConform | app/lib/gemini-api.ts:154-173 | both validators build only conforming questions |
| GeminiApi.FirstNull | app/lib/gemini-api.ts:152-155 | the loop's stopping point is the first JSON null; every earlier item is non-null |
| GeminiApi.AcceptedProvenance | app/lib/gemini-api.ts:152-179 | every question pushed is what the validator makes of one of the items reached, with the uuid suffix drawn at its position |
| GeminiApi.AcceptedConform | app/lib/gemini-api.ts:152-179 | every question pushed conforms |
| GeminiApi.Harvest | app/lib/gemini-api.ts:144-185 | a reply whose payload does not parse to an array contributes nothing; otherwise at most one question per item |
| GeminiApi.AppendAccepted | app/lib/gemini-api.ts:152-179 | the loop appends exactly the specification's accepted questions, stopping at a JSON null in the first batch |
| GeminiApi.Collect | app/lib/gemini-api.ts:139-188 | processing one reply appends exactly its harvest |
| GeminiApi.HarvestConforms | app/lib/gemini-api.ts:144-185 | every question a reply contributes conforms |
| GeminiApi.PlanSlot | app/lib/gemini-api.ts:71-76 | one pass of the inner loop extends the category's filtered slots by slot j exactly when its year is 2009 or later |
| GeminiApi.PlanCategory | app/lib/gemini-api.ts:70-77 | the inner loop yields the category's slots from 2009 onwards |
| GeminiApi.PlanBatch | app/lib/gemini-api.ts:57-78 | the nested loops yield the filtered full plan |
| GeminiApi.PlanBackup | app/lib/gemini-api.ts:194-204 | the backup plan has exactly the shortfall's length; slot i has category i mod 4 and a year in [2009, 2023] |
| GeminiApi.Gather | app/lib/gemini-api.ts:112-321 | the backup request is made only on a shortfall and only for that shortfall; the accepted questions are the first batch's followed by the backup's, all conforming |
| GeminiApi.ShuffleAndTake | app/lib/gemini-api.ts:324 | the result has min(count, \|questions\|) elements, each taken from the questions with no element taken more often than it occurs there |
| GeminiApi.FetchBatch | app/lib/gemini-api.ts:36-325 | an empty key fails with the key error before any planning; otherwise the result holds min(count, accepted) of the accepted questions, all conforming |
| GeminiApi.FetchQuestions | app/lib/gemini-api.ts:335-341 | the older entry point has exactly the batch call's outcome: the key error before planning without a key; otherwise the filtered plan, the batch outcome, and min(count, accepted) of the accepted questions, all conforming |
| Shuffling.Shuffle | app/lib/gemini-api.ts:324 | the sort with a random comparator returns a permutation of its input |
| Questions.SubBatchDistinctIds | app/api/generate-questions/route.ts:406 | rearranging or thinning a batch with distinct ids keeps the ids distinct |
| GenerateQuestionsRoute.DifficultyFilter | app/api/generate-questions/route.ts:81-91 | the filter is "easy", "medium" or "hard"; it is "easy" exactly for "easy", "hard" exactly for "hard", and "medium" for everything else |
| GenerateQuestionsRoute.DraftOf | app/api/generate-questions/route.ts:271-291 | a reply is accepted only if it is a JSON object with a non-empty question, four options and an answer index in [0, 3]; the fields are copied |
| GenerateQuestionsRoute.DraftAcceptance | app/api/generate-questions/route.ts:278-291 | an object carrying a draft's fields is accepted if and only if the draft is valid, whatever its category and year |
| GenerateQuestionsRoute.PrimaryIdInjective | app/api/generate-questions/route.ts:295 | within a plan whose years are fixed by rank, equal primary ids mean equal slots |
| GenerateQuestionsRoute.BackupIdRank | app/api/generate-questions/route.ts:388 | equal backup ids mean equal ranks |
| GenerateQuestionsRoute.PrimaryIsNotBackup | app/api/generate-questions/route.ts:295-388 | a primary id never equals a backup id |
| GenerateQuestionsRoute.PrimaryQuestionsShape | app/api/generate-questions/route.ts:224-316 | every first-pass question was built for a planned slot under that slot's id, and no two share an id |
| GenerateQuestionsRoute.BackupQuestionsShape | app/api/generate-questions/route.ts:319-403 | every backup question was built for a backup slot under its backup id, and no two share an id |
| GenerateQuestionsRoute.PrimarySound | app/api/generate-questions/route.ts:220-316 | the first pass yields at most `count` conforming questions with distinct ids, each built for a planned slot |
| GenerateQuestionsRoute.BackupSound | app/api/generate-questions/route.ts:319-403 | the backup pass yields conforming questions with distinct ids, each built for a backup slot |
| GenerateQuestionsRoute.JoinDistinct | app/api/generate-questions/route.ts:295-388 | joining the two passes keeps ids distinct, since no primary id is a backup id |
| GenerateQuestionsRoute.LocalOutcomeSound | app/api/generate-questions/route.ts:205-403 | one generation yields at most `count` conforming questions with pairwise distinct ids |
| GenerateQuestionsRoute.AskSlot | app/api/generate-questions/route.ts:230-314 | one pass of the inner loop makes exactly one provider call and extends the first pass by slot j's question when the reply is valid |
| GenerateQuestionsRoute.GenerateCategory | app/api/generate-questions/route.ts:229-315 | the inner loop makes one provider call per slot and appends the questions of the specification's first pass |
| GenerateQuestionsRoute.GeneratePrimary | app/api/generate-questions/route.ts:220-316 | the nested loops produce the first pass over exactly `count` planned slots, with no 2009 filter |
| GenerateQuestionsRoute.GenerateBackup | app/api/generate-questions/route.ts:319-403 | the backup loop plans exactly `remaining` slots of category i mod 4 with years in [2009, 2023], and appends their questions |
| GenerateQuestionsRoute.BackupSlotStep | app/api/generate-questions/route.ts:322-402 | backup slot i (category i mod 4, rank i, year in [2009, 2023]) extends the backup plan, and the backup pass by its question exactly when its call yields a valid draft |
| GenerateQuestionsRoute.AskBackupSlot | app/api/generate-questions/route.ts:322-402 | one pass of the backup loop extends the backup plan by one slot and the gathered questions by that slot's question, if any |
| GenerateQuestionsRoute.GenerateLocally | app/api/generate-questions/route.ts:172-407 | an empty key fails with the key error; otherwise the result is, up to order, exactly what the two passes gather for `count` questions at the difficulty from the provider, hence at most `count` conforming questions with distinct ids |
| GenerateQuestionsRoute.GenerationSound | app/api/generate-questions/route.ts:172-407 | anything that is, up to order, what a generation of n questions gathers has at most n conforming questions with distinct ids |
| GenerateQuestionsRoute.RowRoundTrip | app/api/generate-questions/route.ts:111-139 | reading back an inserted row gives the inserted question, on all six fields |
| GenerateQuestionsRoute.QuestionRoundTrip | app/api/generate-questions/route.ts:111-139 | a row is its question plus its difficulty and creation time |
| GenerateQuestionsRoute.RowsRoundTrip | app/api/generate-questions/route.ts:111-139 | reading back a whole inserted batch gives the batch |
| GenerateQuestionsRoute.RowsOf | app/api/generate-questions/route.ts:130-139 | one row per generated question, each carrying the difficulty filter and the creation time |
| GenerateQuestionsRoute.QuestionsOf | app/api/generate-questions/route.ts:111-118 | one question per row, in order |
| GenerateQuestionsRoute.MatchingRows | app/api/generate-questions/route.ts:95-98 | the rows a query sees are exactly the stored rows of the filtered difficulty |
| GenerateQuestionsRoute.Select | app/api/generate-questions/route.ts:95-100 | the query returns the first min(limit, matching) rows of that difficulty, newest first |
| GenerateQuestionsRoute.InsertedComeFirst | app/api/generate-questions/route.ts:95-100 | after an insert under a difficulty, a query for that difficulty sees the inserted rows first |
| GenerateQuestionsRoute.TriviaTable.Query | app/api/generate-questions/route.ts:95-100 | the query answers exactly the selection: the newest-first rows of the requested difficulty cut to `limit`, hence at most `limit` rows, all stored and all of that difficulty |
| GenerateQuestionsRoute.TriviaTable.Insert | app/api/generate-questions/route.ts:141-143 | a successful insert puts the new rows in front as the newest |
| GenerateQuestionsRoute.FetchFromDatabase | app/api/generate-questions/route.ts:72-166 | no client: the client error. Query error or exception: nothing stored, and a full regeneration of `count` from the first provider. Enough rows: those rows mapped, with no generation and no insert. Otherwise the shortfall `count` − stored is generated from the first provider (exactly the two passes' outcome, up to order), inserted under the filter only if non-empty and only on success, and returned after the stored rows. An insert exception leads to a full regeneration from the second provider. The result never exceeds `count` |
| GenerateQuestionsRoute.Regenerate | app/api/generate-questions/route.ts:105 | a full regeneration fails exactly without a key, with the key error, and otherwise returns, up to order, exactly what a generation of `count` at the difficulty gathers |
| GenerateQuestionsRoute.Post | app/api/generate-questions/route.ts:32-66 | an unreadable body gives 500 with the generic message; a missing key or client gives 500 before any query or generation, with nothing stored; otherwise the database path runs with the requested count and difficulty (8 and "medium" when absent), with the outcome that path states, and its questions are the answer |
| GenerateQuestionsRoute.FirstSlotQuestion | app/api/generate-questions/route.ts:293-305 | when the first slot's call yields a valid draft, the question built for it under `category-year-rank` is in the first pass |
| GenerateQuestionsRoute.LeadSlotFixed | app/api/generate-questions/route.ts:172-200 | every plan starts with the first category's slot of rank 0 at 2024, whatever the count and difficulty, so each generation's first id is `development-2024-0` when that call succeeds |
| GenerateQuestionsRoute.GenerationHasLead | app/api/generate-questions/route.ts:293-305 | a generation whose first call yields a draft holds a question with the first slot's id |
| GenerateQuestionsRoute.TopUpRepeatsIds | app/api/generate-questions/route.ts:120-166 | on the top-up path, a returned stored row with the id of the shortfall plan's first slot, together with a draft for that slot, makes the answer repeat that id |
| TriviaData.BankLaidOut | app/lib/trivia-data.ts:10-178 | the bank has twenty entries; entry i conforms and belongs to category i / 5 |
| TriviaData.BankWellFormed | app/lib/trivia-data.ts:10-178 | every entry has four options and an answer in [0, 3]; all twenty ids are distinct; each of the four categories has exactly five entries |
| TriviaData.LaidOutByCategory | app/lib/trivia-data.ts:189 | filtering the bank by category i gives exactly block i of five entries |
| TriviaData.TakenAll | app/lib/trivia-data.ts:182-196 | for a count up to twenty, the per-category takes min(5, share) add up to exactly `count` |
| TriviaData.SelectByCategory | app/lib/trivia-data.ts:188-197 | the `forEach` lays the selection out by category, with min(5, share) entries of category i in block i, all drawn from the bank without repetition |
| TriviaData.SelectFrom | app/lib/trivia-data.ts:180-201 | the result is a permutation of the per-category selection; it has distinct ids and only bank entries |
| TriviaData.GetRandomQuestions | app/lib/trivia-data.ts:180-201 | the result length is the sum of min(5, share), which equals `count` for 0 ≤ count ≤ 20; it is a permutation of a category-balanced selection; every element is a bank entry and no id repeats |
| TriviaData.EntryYear | app/lib/trivia-data.ts:203-217 | the year is one of 2013, 2015, 2017, 2019, 2020, 2021, 2022 or 2023; it is 2013 exactly at 90% or more and 2023 exactly below 30% |
| TriviaData.EntryYearMonotone | app/lib/trivia-data.ts:205-216 | for a fixed number of questions a higher score never gives a later year |
| QuizStore.Unanswered | app/lib/store.ts:38 | `n` empty answer slots |
| QuizStore.TriviaStore.constructor | app/lib/store.ts:25-30 | the initial state has no questions, index 0, no answers, score 0, not complete and no entry year |
| QuizStore.TriviaStore.InitializeQuiz | app/lib/store.ts:33-43 | a fresh bank selection with every answer slot empty, index 0, score 0, not complete and no entry year; the index invariant holds |
| QuizStore.TriviaStore.AnswerQuestion | app/lib/store.ts:45-59 | only the current answer slot changes; the score rises by one exactly when the answer is correct; questions, index and completion are unchanged; with no questions the lookup fails and nothing changes |
| QuizStore.TriviaStore.NextQuestion | app/lib/store.ts:61-72 | the index advances by one while a next question exists; otherwise it stays and the results are computed |
| QuizStore.TriviaStore.ResetQuiz | app/lib/store.ts:74-76 | behaves as initialize with eight questions |
| QuizStore.TriviaStore.CalculateResults | app/lib/store.ts:78-86 | the quiz is marked complete and its entry year is the score's year; nothing else changes |

The store's `Valid()` is its invariant: one answer slot per question, and
the index on an existing question (0 for an empty list). The constructor and
every action establish it, so the index stays in range under any sequence of
actions.

## Left out

- **Foreign calls.** The provider SDK, the prompt texts, the generation
  settings, the safety settings, `JSON.parse`, zod's own machinery and the
  uuid generator are parameters: functions from slots or positions to
  replies, parses and uuids. The prompts' content is not modelled, and
  neither is the `console` logging.
- **Identity of provider calls.** The batch adapter's two requests are
  identified by their slot lists. The endpoint's provider calls are
  identified by their ordinal within one generation. A regeneration after an
  exception uses a second provider (`askAgain`).
- **Dynamic JSON values.** A JSON value that is neither null nor an object
  (a number, say) is modelled as a record whose fields are all absent, which
  every check rejects, as the source does.
- GeminiApi.AcceptPrimary: a truthy non-string `question`, and `options`
  elements that are not strings, are accepted by the source's first-batch
  check. The model reads such a field as `Mistyped` and rejects the
  candidate.
- GenerateQuestionsRoute.DraftOf: the endpoint's check
  (`app/api/generate-questions/route.ts:278-285`) also accepts a truthy
  non-string `question` and `options` elements that are not strings. The
  model reads such a field as `Mistyped` and rejects the reply, so such
  replies yield no question here.
- GeminiApi.AcceptPrimary: `correctAnswer` is only checked to be a number
  in [0, 3], never to be an integer (a fractional index passes). The model
  types it as `int`, so fractional answers are not represented. The same
  holds for `year` and for the endpoint's `correctAnswer`.
- GenerateQuestionsRoute.Post: `count` is a natural number. Negative or
  fractional counts from the request body are not represented.
- GeminiApi.FetchBatch: the default arguments (`count` 10, difficulty
  "medium") are not modelled; every caller passes both. `count` is a
  natural number, so negative or fractional counts are not represented.
- GeminiApi.FetchQuestions: the same defaults (10 and "medium") are not
  modelled, and `count` is a natural number here too.
- GenerateQuestionsRoute.FetchFromDatabase: does not promise distinct ids
  on the top-up path, because the source does not keep them distinct. The
  generated ids are numbered from scratch (`category-year-rank`), so they can
  repeat the ids of returned stored rows. GenerateQuestionsRoute.TopUpRepeatsIds
  states when this happens: for example, a table holding eight "medium" rows
  from an earlier batch of eight (one of them `development-2024-0`) and a
  request for ten. Within one generation the ids stay distinct
  (GenerateQuestionsRoute.GenerationSound).
- TriviaData.EntryYear: the floating-point percentage `(score / total) * 100`
  is idealised as exact integer comparisons such as `score*100 >= 90*total`.
  A score over zero questions is modelled as JavaScript's division by zero:
  Infinity maps to 2013 and NaN to 2023.
- TriviaData.GetRandomQuestions: states that every element is a bank entry and that no id repeats,
  rather than that the result is a sub-multiset of the bank. The sub-multiset form is stated by
  TriviaData.SelectFrom, which the method calls on the bank.
- GenerateQuestionsRoute.TriviaTable.Insert: rows of one insert share one
  creation time. Their relative order under the newest-first query (a tie)
  is taken as their insertion order. The real store's order for ties is not
  modelled. The creation time `now` is a free string. The newest-first
  order is modelled as insertion order, which assumes that each insert
  carries a later time than the ones before it.
- **The Supabase client and network.** The query and the insert are a
  `TriviaTable` plus fault parameters. A query fault is an error result or
  an exception. An insert fault is an error result, which is only logged, or
  an exception. The absent client is a null table.
- **The in-place sort.** `array.sort` with a random comparator works on a
  copy in an array and returns a permutation. Which permutations are
  reachable, and their distribution, is not modelled.
- **async/await.** Execution is sequential and there is no concurrency to
  model. A generation that fails inside the database path's `try` is caught
  and followed by a full regeneration. That regeneration's own failure is
  returned, not caught, as in the source.
- **Other parts of the repository.** The UI components, the frame,
  cast-score and scorecard-image routes, the Farcaster helpers,
  `app/lib/supabase-client.ts` and configuration are not part of this model.
