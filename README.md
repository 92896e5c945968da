# proyecto-naza core, modelled in Dafny

This project models the deterministic business logic of the Naza language-tutor web application. The application is a Django app: a user chats with an AI tutor, reviews vocabulary as flash cards, and takes quizzes generated from their conversations. The modelled logic is the following.

- **Spaced-repetition vocabulary** (`Srs`).
  - The review queue holds every word whose next review is due, earliest first.
  - Grading is Leitner style. "facil" raises mastery by one, up to 5, and waits 1/3/7/14/30/60 days. "bien" keeps mastery and waits 1/2/4/7/15/30 days. Any other grade lowers mastery by one, down to 0, and shows the word again one minute later.
  - Words extracted from chat replies are inserted with case-insensitive de-duplication.
- **Long-term memory** (`Memory`): facts learnt about the user are inserted with exact-text de-duplication.
- **Progression** (`Progress`). There are two independent update paths.
  - Per chat turn: a once-a-day streak, a flat +10 XP, and the level formula `xp / 100 + 1`, which never lowers the level.
  - Per completed quiz: +50 XP, an unconditional streak increment, and one level-up when XP reaches `nivel * 500`.
- **Quizzes** (`Quizzes`).
  - The last and the best completed attempt.
  - The retry cooldown (3 days without settings) and the days left until a retry.
  - The four options of a question and its answer letter.
  - Submission: it is rejected during the cooldown. Otherwise it records one response per answered question, tallies the correct ones and applies the quiz reward.
- **Voice and language resolution** (`Voice`).
  - Which synthesis voice speaks a reply: native match, then target match, then a 9-language table, then the target voice.
  - The speech-recognition hints: a primary code plus at most 3 alternatives, never including the primary.
- **Chat helpers** (`Chat`):
  - the title of a new conversation;
  - the 30-message history window;
  - the persona lookup;
  - the low-confidence pronunciation instruction;
  - the cleaning of the model's raw reply;
  - the canned replies used when the reply cannot be parsed or the call fails.
- **Dashboard** (`Dashboard`): the daily-goal gauges and the weekly chart scale.

Time is explicit in the model. Instants are integer seconds and calendar dates are integer day numbers, so `timedelta.days` of a positive delta becomes division by 86400. Database tables are sequences: the vocabulary table and the fact table are classes whose methods update a `seq` field. The progress record and the attempts of a quiz are also classes updated in place. Each method's `ensures` ties the new state to a specification function of the old state. The properties are then proved about those functions.

Where documentation and code disagree, the model follows the code:

- The pronunciation instruction is added when the recognition confidence is below **0.90** (`core/utils.py:157`). The function's docstring says 0.75 (`core/utils.py:104`). A confidence of 0.85 therefore gets the instruction.
- The days-left count is `floor(wait / 1 day) + 1`. It lies in `[1, cooldown]` only strictly after the attempt's own instant. At that very instant it reports `cooldown + 1` (`Quizzes.LockedDaysBounds`).
- A chat turn whose own `get_or_create` creates the progress record fails. The new object still holds the column default of `ultima_interaccion` (`core/models.py:89`), which is `timezone.now()`, a datetime. Comparing it with today's date (`core/utils.py:53`) raises `TypeError` inside the progress update (`core/views.py:430`). The turn's XP and streak update is lost, and the response is a 500 error (`core/views.py:446-449`). What the turn stored before that call stays stored, since nothing is rolled back: the conversation, both messages, the new facts, the error record and the new words (`core/views.py:240-349`), and the progress row that `get_or_create` inserted with its defaults. The comment at `core/utils.py:62` expects a new user to get streak 1. A record created earlier by another view is read back holding a date. Its first turn the same day leaves the streak at 0, and a turn on a later day gives 1 (`Progress.FirstTurnOnFreshRecord`). The branch at `core/utils.py:61-63` is therefore unreachable.
- The quiz result page reports as "total" the number of recorded responses, which is the number of *answered* questions (`core/views.py:1578`). The stored score divides by the number of *all* questions (`core/views.py:1451`). `Quizzes.ResponsesCount` proves that the two correct tallies agree.

## Model

| member | source | states |
|---|---|---|
| Srs.Grade | core/views.py:1071-1093 | "facil" gives mastery `min(5, n+1)` and a wait of `EasyDays[new level]` days. "bien" keeps the level and waits `GoodDays[n]` days, and a level above 5 raises the `IndexError`. Every other grade gives `max(0, n-1)` and one minute. For a level in [0,5] the new level stays in [0,5] and the next review is strictly after now. Only "facil" can raise mastery. |
| Srs.EasyLengthensInterval | core/views.py:1073-1076 | Each "facil" grade from a higher level waits strictly longer, until the 60-day ceiling at level 5. |
| Srs.ReviewFrame | core/views.py:1069-1094 | Grading an existing row in range changes only that row's mastery and next review, which become the level and instant `Grade` gives. The last-review instant and every other row are unchanged, and the result is in range and in the future. |
| Srs.VocabTable.Review | core/views.py:1066-1096 | The in-place grading of row `id`: an unknown row is 404, an out-of-table level is 500, otherwise the row is regraded. The table invariant (every mastery in [0,5]) is preserved. |
| Srs.Reviewed | core/views.py:1066-1096 | 404 iff the row does not exist, 500 iff grading its level raises `IndexError`. In both cases the table is unchanged, and it never changes length. |
| Srs.Due | core/views.py:1059-1061 | A row is in the result iff it is in the table and its next review is at or before now. Each due row occurs as often as in the table, and no other row occurs. |
| Srs.DueQueue | core/views.py:1059-1062 | The queue is sorted by next review and holds the due rows as a multiset. |
| Srs.InsertByNextReview | core/views.py:1062 | Inserting into a queue sorted by next review keeps it sorted and adds exactly that row. |
| Srs.SortByNextReview | core/views.py:1062 | The result is sorted by next review and is a permutation of the input. |
| Srs.SortedAllPairs | core/views.py:1062 | Neighbour order implies the order of every pair. |
| Srs.DueQueueSpec | core/views.py:1059-1062 | The queue is ascending for every pair and is a permutation of the due rows. It holds each row due at now as often as the table does, and no other row. |
| Srs.QueueHeadIsEarliest | core/views.py:1100-1101 | The queue is empty iff nothing is due. Otherwise its head is a due row scheduled no later than any other due row. |
| Srs.ReviewLanguage | core/views.py:1098-1110 | The page language is "en-US" when nothing is due. Otherwise it is the head word's language, or, when that is empty, the first two subtags of the target voice code ("en-US" without settings). |
| Srs.NewRow | core/views.py:349-355 | A new word starts at mastery 0 with next and last review at now. |
| Srs.AddWords | core/views.py:341-355 | The existing rows stay as a prefix, and at most one row is added per extracted word. |
| Srs.AddWordsSpec | core/views.py:341-355 | Insertion keeps the existing rows as a prefix. Each added row is the new row of an extracted word with non-empty word and translation, so it has mastery 0 and is due now. Case-insensitive duplicates never appear, and mastery stays in range. |
| Srs.HasWordKept | core/views.py:347-348 | A word with a case-insensitive match stays matched through later insertions. |
| Srs.AddWordsCovers | core/views.py:346-355 | Every extracted word with non-empty word and translation is in the table afterwards. |
| Srs.NewWordIsDue | core/views.py:349-355 | A word inserted at now is in the review queue at now and at every later instant. |
| Srs.VocabTable.LearnWords | core/views.py:341-355 | The loop's table equals the fold `AddWords` over the extracted words, and the table invariant is preserved. |
| Srs.PyIndex | core/views.py:1076 | Python list indexing: defined exactly for `-len <= i < len`, counting from the end for negative `i`. |
| Memory.AddFactsSpec | core/views.py:304-310 | Old facts stay in place as a prefix. Afterwards a fact is present iff it was old or new. Distinct facts stay distinct. New facts that are all already known leave the table unchanged. |
| Memory.AddFacts | core/views.py:304-310 | The existing facts stay as a prefix, and at most one fact is added per new fact. |
| Memory.FactTable.LearnFacts | core/views.py:307-310 | The loop's table equals the fold `AddFacts` over the new facts. |
| Progress.StreakStep | core/utils.py:52-65 | A record already touched today is unchanged. Yesterday's activity extends the streak, and that is the only case reported as "aumentada". A longer gap on an existing record restarts at 1. Otherwise 0 becomes 1. The date becomes today and the streak is at least 1. |
| Progress.AfterTurn | core/utils.py:37-83 | Fails (`None`) exactly when the record was made by this call's `get_or_create`. Otherwise the turn adds exactly +10 XP, reported as `xp_ganada`. The level is `max(old, xp / 100 + 1)`, and "subio_nivel" holds iff that exceeds the old level. "racha_aumentada" holds iff the last activity was yesterday, and then the streak grows by one. A same-day record keeps its streak, an older one restarts at 1, and the date becomes today. The reported fields equal the saved ones. |
| Progress.SameDayTurnKeepsStreak | core/utils.py:53 | A second turn on the same day earns XP again and leaves the streak untouched. |
| Progress.ConsecutiveDaysExtendStreak | core/utils.py:53-57 | k turns on k consecutive days after yesterday's activity add exactly k to the streak and k*10 XP. |
| Progress.FirstTurnOnFreshRecord | core/utils.py:42-65 | A turn on a record made by the same call fails. On a record made earlier, a turn the same day leaves the streak at 0 with +10 XP. A turn on a later day sets the streak to 1, reported as "aumentada" only the day after creation. |
| Progress.AfterQuiz | core/views.py:1458-1470 | +50 XP and streak +1 unconditionally, with the date set to today. The level rises by exactly one, with `nivel*500` subtracted, iff XP reaches the threshold. |
| Progress.QuizLevelsOnlyOnce | core/views.py:1465-1470 | The threshold check runs once: from any level of at least 1, a balance that covers this level's and the next level's thresholds rises by exactly one level and stays at or above the new threshold. |
| Progress.QuizThenTurnSameDay | core/views.py:1461-1462 | After a quiz, a chat turn the same day leaves the quiz's streak value in place. |
| Progress.Progreso.constructor | core/models.py:84-89 | A new record has level 1, 0 XP, streak 0 and today's date. |
| Progress.Progreso.UpdateForTurn | core/utils.py:37-83 | The in-place chat-turn update equals `AfterTurn` on the old record. In the failing case (`creado`) it returns `None` and leaves the record unchanged. |
| Progress.Progreso.RewardQuiz | core/views.py:1457-1472 | The in-place quiz reward equals `AfterQuiz` on the old record. |
| Quizzes.Porcentaje | core/views.py:1451 | An empty quiz scores 0. A score with no more correct answers than questions lies in [0, 100], and it is 100 iff the quiz is non-empty and all answers are correct. |
| Quizzes.LastCompleted | core/models.py:144-146 | None iff no attempt is completed. Otherwise it is a completed attempt whose date is no earlier than any completed attempt's. |
| Quizzes.BestScore | core/models.py:139-142 | None iff no attempt is completed. Otherwise it is the score of a completed attempt with the highest percentage. |
| Quizzes.CooldownDays | core/models.py:148-152 | The user's configured days, or 3 without settings. |
| Quizzes.DefaultSettingsCooldown | core/models.py:17 | A default settings row gives the same cooldown as no settings at all: 3 days. |
| Quizzes.CanRetry | core/models.py:154-164 | True iff the cooldown has elapsed for every completed attempt, in particular when there is none. |
| Quizzes.DaysToRetry | core/models.py:166-179 | Never negative, and 0 without a completed attempt. While the cooldown lasts, a wait of `w` seconds gives the `d` with `(d-1)·day <= w < d·day`, i.e. whole days plus one. |
| Quizzes.DaysZeroIffCanRetry | core/models.py:166-179 | The days left are never negative and are 0 exactly when a retry is allowed. |
| Quizzes.LockedDaysBounds | core/models.py:173-179 | While locked, strictly after the last attempt, between 1 and the cooldown days remain. At the attempt's own instant, cooldown + 1 remain. |
| Quizzes.DaysNonIncreasing | core/models.py:162-179 | As time advances the days left never grow, and an open quiz stays open. |
| Quizzes.IncompleteAttemptIgnored | core/models.py:139-146 | An incomplete attempt changes neither the last attempt, the best score, the lock nor the days left. |
| Quizzes.Options | core/models.py:205-206 | Always four options. `Quizzes.OptionsRoundTrip` states their order a, b, c, d. |
| Quizzes.Letter | core/models.py:208-209 | Defined exactly for indices -4..3, always a letter A..D. |
| Quizzes.LetterNegative | core/models.py:209 | A negative index names the same letter as the index four higher. |
| Quizzes.LetterRoundTrip | core/models.py:208-209 | Indices 0..3 and letters A..D correspond one to one, in both directions. |
| Quizzes.CorrectLetter | core/models.py:208-209 | A letter exists iff the stored index is in -4..3. For 0..3 the letter reads back as that index. |
| Quizzes.FromGenerated | core/views.py:1371-1384 | The stored question keeps the generated number, text, answer index, explanation and category. |
| Quizzes.OptionsRoundTrip | core/views.py:1371-1384 | Reading back a generated question's options yields the first four generated options, padded with ''. With exactly four options they come back unchanged. |
| Quizzes.CountCorrectAppend | core/views.py:1577 | The correct-response count of a concatenation is the sum of the counts. |
| Quizzes.Correct | core/views.py:1428-1441 | The correct tally never exceeds the number of questions. |
| Quizzes.Responses | core/views.py:1431-1448 | Never more responses than questions. |
| Quizzes.Answered | core/views.py:1431-1436 | The number of answered questions never exceeds the number of questions. |
| Quizzes.ResponsesOrdered | core/views.py:1431-1448 | At most one response per question: each response names one of the quiz's questions, and the questions named are strictly increasing in question order. |
| Quizzes.ResponseFor | core/views.py:1434-1448 | A question gets one response, naming the attempt and the question, iff it was answered, and none otherwise. |
| Quizzes.ResponsesCount | core/views.py:1428-1448 | Correct answers ≤ responses ≤ questions, and there are exactly as many responses as answered questions. The responses marked correct are exactly the tallied correct answers. |
| Quizzes.ResponsesEntries | core/views.py:1436-1448 | Every response belongs to the attempt and names an answered question, its chosen index and whether that index is the right one. |
| Quizzes.ResponsesCover | core/views.py:1434-1436 | A question has a response exactly when it was answered, so unanswered questions create none. |
| Quizzes.QuizHistory.constructor | core/models.py:212-228 | A quiz starts with no attempts and no responses. |
| Quizzes.QuizHistory.RecordResponses | core/views.py:1428-1448 | The loop over the questions appends exactly `Responses` of the submission to the stored responses, leaves the attempts alone, and returns the `Correct` tally. |
| Quizzes.QuizHistory.Submit | core/views.py:1414-1486 | During the cooldown the answer is the days left and nothing changes. In particular no attempt or response is created and the progress is untouched. Otherwise one attempt is appended, completed, dated now and scored (correct, total). The responses of the answered questions are appended, the quiz reward is applied, and the rewards report 50 XP, the level-up flag and the new level. |
| Voice.Get | core/views.py:399-400 | `dict.get`: the mapped value for a present key, else the default. |
| Voice.PrimaryLanguage | core/views.py:384 | The lower-cased part of the tag before its first '-'. |
| Voice.NativeCode | core/views.py:394 | The mapped code of the native language name, or "es" for an unknown name or no settings. |
| Voice.TargetCode | core/views.py:395 | The mapped code of the target language name, or "en" for an unknown name or no settings. |
| Voice.DefaultSettingsLikeNone | core/models.py:15-16 | A default settings row resolves the native and target codes exactly as no settings do: "es" and "en". |
| Voice.PickVoice | core/views.py:377-415 | The reply's primary language picks, in order: the native voice, the target voice, the fixed fallback table, and finally the target voice. |
| Voice.PickVoiceRange | core/views.py:377-415 | The chosen voice is always one of the user's two voices or a table voice. |
| Voice.PrimaryOfCode | core/views.py:384 | The language of a code "xy-..." is "xy". |
| Voice.FallbackVoiceSpeaksLanguage | core/views.py:404-412 | Every fallback voice belongs to the language it is chosen for. |
| Voice.LanguageTablesAgree | core/views.py:485-489 | The voice-code and recognition-code tables name the same languages, and each recognition code starts with the voice code. |
| Voice.SttHintsFor | core/views.py:485-510 | The defaults are "es-ES" and {"en-US"}. With settings the primary is the target language's code, and the alternatives are exactly {native, "en-US", "es-ES"} without the primary. The alternatives never contain the primary and number at most 3. |
| Voice.SubsetCard | core/views.py:509 | A subset is no larger than its superset (this bounds the alternatives). |
| Chat.Take | core/views.py:239 | `s[:n]` is a prefix of length `min(n, len)`. |
| Chat.ChatTitle | core/views.py:239 | A role-play title starts with "Rol: " and is 5 characters longer than the scenario; `Chat.RolePlayTitleNamesScenario` gives its content up to case. A general title is the first `min(len, 20)` characters of the user's text followed by "...", so a short text appears in full. |
| Chat.RolePlayTitleNamesScenario | core/views.py:239 | Up to letter case, a role-play title names its scenario. |
| Chat.Reverse | core/views.py:253 | The reversal holds element `len-1-i` at `i`. |
| Chat.HistoryWindow | core/views.py:252-253 | The window holds `min(30, len - 1)` messages, and none for fewer than two. |
| Chat.HistoryWindowIsRecentPast | core/views.py:252-253 | The window is exactly the up to 30 messages before the newest one, oldest first. |
| Chat.BuildHistory | core/views.py:255-258 | One history entry per window message, in order. The role is "user" exactly for messages stored as 'usuario'. |
| Chat.PersonaFor | core/utils.py:108-138 | Only the four role-play tags select their persona. Every other tag, including unknown ones, selects the general persona. |
| Chat.PersonaTagRoundTrip | core/utils.py:108-138 | Each persona is selected by its own tag. |
| Chat.PronunciationBlock | core/utils.py:156-159 | The instruction is present iff the confidence is below 0.90. |
| Chat.PronunciationBlockMonotone | core/utils.py:157 | Lower confidence never removes the instruction. The default confidence 1.0 never adds it, and 0.85 does. |
| Chat.RemoveFenceLeavesNone | core/utils.py:212 | After every "```" is removed, none is left, even where the surrounding pieces meet. |
| Chat.CleanText | core/utils.py:212 | The cleaned text is never longer than the raw one and has no white space at either end. |
| Chat.CleanTextSpec | core/utils.py:212 | The text given to the parser has no "```" and no white space at either end. |
| Chat.CleanTextIdempotent | core/utils.py:212 | Cleaning a cleaned reply changes nothing. |
| Chat.UnwrapJsonFence | core/utils.py:212 | A payload without back-quotes wrapped as "```json" + payload + "```" reaches the parser as the stripped payload. |
| Chat.Respond | core/utils.py:210-235 | A failed call gives the "Connection error" reply and an unparsable reply gives the "cut off" reply. Both are English, with no error flag and null pronunciation fields. A parsed reply is returned as parsed. |
| Chat.FallbackRecordsNothing | core/utils.py:218-235 | A fallback reply flags no grammar error and carries no pronunciation tip, so nothing gets logged for it. |
| Text.Lower | core/views.py:347 | Lower-casing keeps the length and maps each character. |
| Text.LowerIdempotent | core/views.py:347 | Lower-casing twice is lower-casing once. |
| Text.BeforeFirst | core/views.py:384 | `split(sep)[0]` is a prefix without `sep`, ended by `sep` when shorter than the input. |
| Text.FirstTwoSubtags | core/views.py:1108 | `"-".join(split('-')[:2])` is the longest prefix of the code with at most one '-'. It extends the first subtag, and when shorter than the code it stops just before the code's second '-'. |
| Text.Strip | core/utils.py:212 | `strip()` is a slice of the input whose removed ends are all white space, and it neither starts nor ends with white space. |
| Text.RemoveAll | core/utils.py:212 | `replace(pat, '')` never lengthens the text. |
| Text.RemoveAllAbsent | core/utils.py:212 | A text in which the pattern does not occur is returned unchanged. |
| Text.RemoveAllKeepsPlain | core/utils.py:212 | Text without a back-quote, followed by anything, passes through unchanged when the pattern starts with a back-quote. |
| Time.DateOf | core/views.py:1462 | The date of an instant is the day that contains it. |
| Profile.Defaults | core/models.py:9-17 | A new settings row has cooldown 3, native language "Español" and target "Inglés". |
| Dashboard.DailyGoal | core/views.py:1254-1258 | The shown count is `min(count, target)` and the percentage is `min(100, RoundedPercent(count, target))`. |
| Dashboard.DailyGoals | core/views.py:1254-1258 | Three gauges: conversations against 3, quizzes against 1 and flash cards against 5, each the `DailyGoal` of its own count. Each gauge is full iff its count reaches its target. |
| Dashboard.RoundedPercent | core/views.py:1255-1257 | The result is the nearest integer to 100·count/target: `2·p·t <= 200·c + t < 2·(p+1)·t`. |
| Dashboard.GoalFullIffMet | core/views.py:1254-1258 | For the targets 1, 3 and 5, a gauge shows 100% iff the goal is met, and its count is the target iff the goal is met. |
| Dashboard.NoHalvesForTargets | core/views.py:1255-1257 | For these targets the share is never exactly a half, so the rounding mode cannot matter. |
| Dashboard.MaxWeekly | core/views.py:1222 | The scale is at least 1 and at least every daily total. It is one of the totals, or 1 when all are 0. |

## Left out

- Django plumbing is not modelled: requests, sessions, redirects and templates, ORM querying and persistence, `get_or_create` and `auto_now_add`. Tables are sequences, and a row's database id is its index in the sequence.
- External services appear only as inputs: the Gemini network call, the Google speech-to-text and text-to-speech clients, e-mail verification with its random code, and PDF rendering. `Chat.Respond` takes the call's outcome and a parser standing for `json.loads` as parameters.
- The prompt text, the persona descriptions and the pronunciation instruction's wording are not modelled; `Chat.PronunciationInstruction` stands for the latter.
- Admin and analytics views, achievements, the leaderboard, notes, front-end scripts and maintenance scripts are not part of this model.
- Case handling is ASCII only: `Text.Lower` and `Text.Capitalize` map A–Z. `Text.Strip` removes the ASCII characters Python counts as white space, including `\x1c`–`\x1f`, but no non-ASCII white space. Python's full Unicode behaviour is not modelled.
- Quizzes.Porcentaje: floating-point arithmetic and the rounding of the score to one decimal are not modelled. Scores are compared as exact percentages of (correct, total), so two scores that round to the same value may compare differently.
- Quizzes.BestScore: when several completed attempts share the highest percentage, the model picks the latest of them in sequence order. The source leaves that choice to the database.
- Srs.ReviewLanguage: the queue orders rows with the same next review by their table order (a stable insertion sort). The source leaves that order to the database (`core/views.py:1062`), so when several due words share the earliest instant the source may read the language of a different one of them (`core/views.py:1101`).
- Quizzes.LastCompleted: among completed attempts with the same date, the model picks the latest in sequence order. The source leaves that choice to the database.
- Quizzes.QuizHistory.Submit:
  - answers arrive already parsed as integers;
  - the `ValueError` that a non-numeric answer raises is not modelled. In the source that error leaves an incomplete attempt behind, which `Quizzes.IncompleteAttemptIgnored` shows is harmless for the cooldown.
- Voice.SttHintsFor: the alternatives are a set. The source turns the set into a list and keeps three, in an unspecified order, which cannot drop anything because the set has at most three elements.
- Speaking rate and the other float settings are carried but not reasoned about.
- Errors the source catches around vocabulary insertion are not modelled: an exception stops the loop half way, but the model's insertion cannot fail.
- The model assumes the views module loads and the chat turn works as intended. As written, `from .utils import ... generar_quiz_gemini` at module level (`core/views.py:20`) names a function the utilities module does not define. The resulting `ImportError` means `core.views` cannot be imported at all. Beyond that, `obtener_respuesta_gemini` is called with keyword arguments it does not accept (`core/views.py:277-286` against `core/utils.py:100`). The resulting `TypeError` ends the turn in the catch-all handler at `core/views.py:446`.
- Several other defects in the source are not reproduced:
  - `texto_a_voz_bytes` is called with three arguments but takes two (`core/views.py:422`, `core/views.py:752`);
  - `logger` is undefined in the views module (`core/views.py:1394`);
  - `generar_quiz_gemini` is imported a second time at `core/views.py:1124`;
  - `resultado_quiz` is defined twice (`core/views.py:1489`, `core/views.py:1553`);
  - a stray body of the quiz page follows the `return` of `delete_note_api` (`core/views.py:1535`) and can never run (`core/views.py:1537-1549`).
- Progress.AfterQuiz: `ultima_interaccion` gets the current datetime in the source and is stored as a date; the model stores that day number (`Time.DateOf`) directly.
- Text.RemoveAll: its own contract gives only the length bound. What remains is stated by `Text.RemoveAllAbsent` and `Text.RemoveAllKeepsPlain`, because an ensures on the function itself made the lemmas that unfold it run out of resource.
- AfterTurn: the failure for a record made in the same call is modelled as `None`; the exception text and the 500 response around it are not modelled.
- Time.DateOf: the date of an instant is taken in UTC, as `timezone.now().date()` gives it. The conversion to the local time zone when a datetime is stored in a date column is not modelled.
