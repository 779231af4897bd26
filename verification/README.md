# Terrible Trivia: the game core in Dafny

This project models the game logic of a chat trivia bot ("Terrible Trivia").
The bot listens for commands that start with `ttt `. It runs at most one
free-for-all multiple-choice game per guild. The game is designed to go
through a fixed cycle of statuses:

- it gathers players for a join window;
- it asks a question drawn from a question set fetched from the Open Trivia
  Database;
- it waits for answers, typed or given by button;
- it scores the answers, or skips the question when enough players vote
  `skip!`;
- it asks the next question, until the questions run out.

A lives variant starts every player at 10 points and takes one away per
miss. It calls out the players' health, and it refetches questions when the
set runs dry.

As written, the cycle stops at its first question. The question is posted
with `say(..., view=...)`, but the bot's `say` has no `view` parameter, so
the call raises `TypeError` and the game fails. No game ever waits for
answers, scores a question, or runs out of questions. The model keeps the
designed cycle behind one flag, `sayTakesView`, of `Games.RunPhase`. The bot
passes the source's value, `Bots.SayTakesView`, which is `false`. The lemmas
about the later phases state what those phases would do once reached, and
they hold for either value of the flag.

The model is purely functional. Every entity is an immutable datatype:

| entity | datatype |
|---|---|
| player record | `Players.Player` |
| question set | `Questions.QuestionSet` |
| game | `Games.Game` |
| bot registry | `Bots.Bot` |
| task stack | `Tasks.TaskStack` |

Every event is a pure step function:

| event | step function |
|---|---|
| a chat message | `Bots.OnMessage` |
| a join | `Games.AddPlayer` |
| an answer | `Games.ReceiveAnswer` |
| a button press | `Games.ReceiveButtonAnswer` |
| a status change | `Games.SetStatus` |
| running the pending phase task | `Games.RunPhase` and `Bots.RunGamePhase` |

The modules, in dependency order:

| module | models |
|---|---|
| `Wrappers` | `Option` and `Result` |
| `Errors` | the Python exception classes that can be raised |
| `Strings` | the string builtins the code relies on (`lower`, `strip`, `startswith`, `removeprefix`, `index`, `split`, `str(int)`) |
| `Tasks` | the `deque(maxlen=250)` task stack and `_flush_tasks` |
| `Players` | the player dataclass and its printed form |
| `Questions` | `QuestionSet` and `MCQuestion`, i.e. construction, the request URL, building questions, iteration |
| `Announcements` | the (text, optional sound) pairs handed to `say`/`speak`, with per-batch sound de-duplication |
| `Scoring` | `_check_answer`, `_skip_question`, the per-player score update of both game modes, and the streak and health reports |
| `Rosters` | the `dict[int, Player]` roster, as an insertion-ordered sequence with distinct ids |
| `Ranking` | the stable descending sort and the tie test |
| `GameOver` | `_end_game`: what is said and raised once the ranking is known |
| `Games` | `FFAGame`, `FFAMultiChoice` and `FFALives`, i.e. the statuses, `_set_status` and the phase bodies |
| `Commands` | the `ttt start …` grammar |
| `Bots` | `on_message`, `_pass_message_to_game`, `_setup_game` and the one-game-per-guild registry |

The source is modelled as written, including its slips. Each slip below is
stated and proved in the model:

- `_ask_next_question` in both games posts the question with a `view`
  keyword that the bot's `say` does not accept. Posting raises `TypeError`
  after the question has been drawn, made current and (in the lives game)
  numbered, and the game fails having said only the critical-error notice.
  So no phase ever reaches WAIT_ANSWERS or QUESTION_RESULTS
  (`Games.AskStandardOutcome`, `Games.PoseLivesOutcome`,
  `Games.NeverWaitsForAnswers`, `Bots.PhasesNeverWait`,
  `Bots.AskingGameDropped`).

- The duplicate-join test in `add_player` compares the builtin `id` with the
  keys, so it never matches. A re-join re-creates the player and counts the
  join again (`Games.RejoinCountsTwice`).
- `_end_game` can never complete:
  - the tie branch builds a list of booleans and reads `.name` from them;
  - the single-winner branch calls `is_perfect()`, which players do not have.

  So once a standard game runs out of questions it ends up FAILED
  (`GameOver.EndGame`, `Games.QuestionsRunOut`). Given the slip above, this
  happens only when the set is already drained at the first ask, which a
  count between 1 and 50 rules out.
- `except ValueError | AssertionError` names a union type. Matching it
  raises `TypeError`, so an invalid question count such as `ttt start mc 0`
  escapes with no reply (`Bots.ZeroCountEscapes`).
- The `difficulty` argument comes from the first `easy|medium|hard` anywhere
  in the command, so `start mc cat hardware` asks for hard questions
  (`Commands.CategoryWordSetsDifficulty`).
- A typed answer is matched against the choices after stripping them, but
  judged against the unstripped correct text. So when the correct text
  carries surrounding whitespace, typing it is recorded and then judged
  wrong (`Scoring.TypedAnswerJudged`, `Scoring.PaddedAnswerJudgedWrong`).
- A failed fetch in `start` escapes before any status change. The game then
  stays registered in STARTING (`Bots.StartOutcome`).
- The player dataclass (spelled `PLayer`) declares no `answer` field, yet
  the game reads and writes one. This model assumes the field exists, as
  `Option<string>`, starting as `None`.

## Model

| member | source | states |
|---|---|---|
| `Tasks.Push` | tt_trivia/FFAGame.py:54 | Appending to the task deque keeps at most 250 entries. Below capacity the new entry is added at the right end. At capacity the oldest entry falls off the left end first. |
| `Tasks.PushAllKeepsNewest` | tt_trivia/FFAGame.py:54 | After any run of appends, the stack holds exactly the 250 most recent entries (or all of them, if fewer), in scheduling order. |
| `Tasks.Flush` | tt_trivia/FFAGame.py:109-114 | `_flush_tasks` leaves the stack empty. It cancels exactly the non-`None` entries, popping from the right end, so the newest is cancelled first. |
| `Tasks.FlushCancelsEachOnce` | tt_trivia/FFAGame.py:111-114 | Every task is cancelled exactly as many times as it appears on the stack. |
| `Players.NewPlayer` | tt_trivia/Player.py:4-10 | Positional construction fills exactly name, id, score, streak and perfect, in declaration order. The undeclared answer starts absent. |
| `Players.ParseHeaderOf` | tt_trivia/Player.py:13 | The first line of the printed form is `Player: {id}: {name}`, with the id before the name, and reads back to that id and name. |
| `Players.StrRoundTrip` | tt_trivia/Player.py:12-20 | `str` is `repr`: the header line, then the score, streak and perfect lines in that order, joined with no trailing newline. It determines every declared field: reading it back recovers them all (for a name without a line break). |
| `Questions.NewQuestionSet` | tt_trivia/QuestionSet.py:30-47 | Missing arguments default to "General Knowledge", "any" and 20. Construction succeeds exactly when 0 < num < 51, the category is known and the difficulty is allowed. The count is checked first. A new set is valid, at index 0, not initialised, and holds no questions. |
| `Questions.DifficultiesAreLower` | tt_trivia/QuestionSet.py:45 | Lower-casing an accepted difficulty leaves it unchanged. |
| `Questions.RequestUrlShape` | tt_trivia/QuestionSet.py:69-79 | The request URL is the API base address followed by the expected parameters joined with `&`: amount and base64 encoding always; category only for a non-empty category; difficulty only when not "any"; then `type=multiple`. |
| `Questions.RequestUrlQuery` | tt_trivia/QuestionSet.py:69-79 | Splitting the request URL back into `key=value` parameters gives exactly that expected list, in order: the category parameter is present iff the category is non-empty, and the difficulty parameter iff it is not "any". |
| `Questions.RequestUrlHead` | tt_trivia/QuestionSet.py:69-70 | Every request URL starts with the base address, `amount={num}` and `&encode=base64`. |
| `Questions.Shuffle` | tt_trivia/QuestionSet.py:112 | `random.shuffle` (Fisher-Yates driven by the supplied draws) returns a permutation of its input. |
| `Questions.IndexOf` | tt_trivia/QuestionSet.py:113 | `list.index` returns the first position holding the value. |
| `Questions.ConstructQuestion` | tt_trivia/QuestionSet.py:109-115 | A multiple-choice question's choices are a permutation of the incorrect answers plus the correct one. The answer index is the first position holding the correct text, so the indexed choice is the answer. Category, difficulty and question text are copied. |
| `Questions.FetchQuestions` | tt_trivia/QuestionSet.py:84-98 | Fetching succeeds exactly when the HTTP status is 200 and the API response code is 0. The questions are then built from the results, one per result and in order. |
| `Questions.Initialize` | tt_trivia/QuestionSet.py:67-82 | `initialize` always resets the index to 0. It raises `KeyError` for a category missing from the table. It succeeds exactly when the category is known and the fetch succeeds, and then the set is initialised with the constructed questions. On failure only the index changed. Type, category, difficulty and count never change. |
| `Questions.Iter` | tt_trivia/QuestionSet.py:138-142 | `__iter__` raises unless the set is initialised, and otherwise restarts at index 0. |
| `Questions.Next` | tt_trivia/QuestionSet.py:144-152 | `__next__` raises on an uninitialised set. While the index is below num it returns the question at the index and advances by one; otherwise it stops and changes nothing. |
| `Questions.DrainBounded` | tt_trivia/QuestionSet.py:147-152 | Calling `next` until it stops yields at most num − index questions: exactly `questions[index..num]` when the list is long enough. |
| `Questions.IterBounded` | tt_trivia/QuestionSet.py:138-152 | After `__iter__`, a full pass yields at most num questions. |
| `Questions.QuestionNumbering` | tt_trivia/QuestionSet.py:61-65 | After a question is drawn, `get_index` equals the `get_question_no` from before the draw, and the question drawn is at position `get_question_no − 1`. |
| `Questions.NextKeepsValid` | tt_trivia/QuestionSet.py:147-150 | Drawing a question keeps the set valid. |
| `Questions.LetterIndex` | tt_trivia/QuestionSet.py:169-170 | `MCQuestion.get_index` is the position of the text in "abcd". There is no result exactly where `str.index` would raise. |
| `Questions.LetterIndexOfLetters` | tt_trivia/QuestionSet.py:169-170 | The letters a, b, c and d map to positions 0, 1, 2 and 3. |
| `Announcements.DedupFirstOccurrence` | tt_trivia/FFAMultiChoice.py:96-108 | In a batch of callouts, every callout keeps its text and position. It carries its sound exactly when no earlier callout in the same batch has the same cue. |
| `Scoring.CheckAnswerMeaning` | tt_trivia/FFAMultiChoice.py:111-123 | No answer at all is wrong. An answer is right exactly in two cases: it lower-cases to the letter of the correct position, or it is not a letter and equals the correct text up to case. |
| `Scoring.TypedAnswerJudged` | tt_trivia/FFAMultiChoice.py:16-27 | A typed answer is lower-cased and stripped. The correct letter is recorded and judged right. Suppose the correct text, once stripped, is not itself a letter. Typing it in any case, with any surrounding spaces, gets it recorded, because choices are compared after stripping. It is judged right exactly when the correct text has no surrounding whitespace, because the check at FFAMultiChoice.py:121 compares it unstripped. A wrong letter is judged wrong even if it spells the correct text. |
| `Scoring.PaddedAnswerJudgedWrong` | tt_trivia/FFAMultiChoice.py:26 | With correct text `"paris "`, typing `Paris` is recorded, yet judged wrong by the unstripped comparison at FFAMultiChoice.py:121. |
| `Scoring.SkipThreshold` | tt_trivia/FFAMultiChoice.py:129 | The skip threshold `round(2/3·n)` is the whole number nearest to 2n/3, computed as (2n+1) div 3. |
| `Scoring.SkipVoteBounds` | tt_trivia/FFAMultiChoice.py:125-130 | A unanimous skip vote always skips. No votes never skips once anyone plays. The threshold is 1 of 1 or 2, 2 of 3, and 3 of 4. |
| `Scoring.UnanimousVotes` | tt_trivia/FFAMultiChoice.py:128 | The vote counts every player whose answer lower-cases to `skip!`: all of them when all voted, none when none did. |
| `Scoring.ScoreRound` | tt_trivia/FFAMultiChoice.py:74-84 | Scoring a question keeps every player in roster order, with the same name, id and answer. |
| `Scoring.PickedFiltersScored` | tt_trivia/FFAMultiChoice.py:74-78 | The players passed to the report are the scored roster, filtered by whether their answer was right: in roster order, each with the update it was scored with. The lives game uses the wrong answers (FFALives.py:63-71). |
| `Scoring.PickedMembers` | tt_trivia/FFAMultiChoice.py:74-78 | A player is passed to the report exactly when it is the scored version of a roster entry whose verdict was right (standard game) or wrong (lives game). |
| `Scoring.UpdateKeepsVerdict` | tt_trivia/FFAMultiChoice.py:75-82 | Scoring a player leaves their answer unchanged, and so the verdict on it. |
| `Scoring.ScoreRoundTotal` | tt_trivia/FFAMultiChoice.py:74-82 | Standard game: total points rise by exactly the number of right answers. Lives game (FFALives.py:63-71): total lives fall by exactly the number of wrong ones. Every player is either right or wrong. |
| `Scoring.ReplaySummary` | tt_trivia/FFAMultiChoice.py:75-82 | Over any run of questions:<br>• the streak counts the right answers since the last miss;<br>• the standard score grows by the right answers;<br>• the lives score falls by the misses;<br>• perfect survives only if every answer was right;<br>• nothing else changes. |
| `Scoring.LivesThreeMisses` | tt_trivia/FFALives.py:64-70 | A lives player who starts with 10 and misses three questions in a row has 7 left and no streak. |
| `Scoring.FilterMembers` | tt_trivia/FFAMultiChoice.py:98-100 | The players called out are exactly the given players that pass the report's test. |
| `Scoring.FilterOrder` | tt_trivia/FFAMultiChoice.py:98-100 | Callouts keep the order of the given players. One player is kept exactly when it passes the test, and filtering two runs in a row gives the two results in a row. |
| `Scoring.StreakReportSpec` | tt_trivia/FFAMultiChoice.py:94-109 | The streak report calls out, in order, exactly the right-answering players with a streak above 2. A streak's sound plays only for the first player called out with that streak. |
| `Scoring.HealthReportSpec` | tt_trivia/FFALives.py:83-102 | The health report calls out, in order, exactly the players who just lost a life and are left at 70, 50, 30 or 10 percent, i.e. 7, 5, 3 or 1 lives. A level's sound plays only for the first player called out at that level. |
| `Rosters.LookupPut` | tt_trivia/FFAGame.py:76 | Assigning `players[id]` stores the player under that id and leaves every other key as it was. The roster grows exactly when the id is new. |
| `Rosters.PutDistinct` | tt_trivia/FFAGame.py:76 | Assigning a key keeps the roster's ids distinct. |
| `Rosters.ResetAnswers` | tt_trivia/FFAMultiChoice.py:132-134 | `_reset_answers` clears every player's answer and changes nothing else. |
| `Rosters.LookupResetAnswers` | tt_trivia/FFAMultiChoice.py:132-134 | Looked up by id, the reset roster holds the same players with their answers cleared. Resetting twice is the same as resetting once. |
| `Rosters.LookupSetAnswer` | tt_trivia/FFAMultiChoice.py:27 | Recording an answer changes only that player's answer. |
| `Ranking.SortSorted` | tt_trivia/FFAMultiChoice.py:138-139 | The final ranking is ordered by score, highest first, and is a permutation of the roster. |
| `Ranking.SortStable` | tt_trivia/FFAMultiChoice.py:139 | The sort is stable: players with the same score keep their roster (join) order. |
| `Ranking.WinnerAndTie` | tt_trivia/FFAMultiChoice.py:140-145 | The first-ranked player has the top score and is the earliest joiner among those holding it. The tie test holds exactly when at least two players share the top score. |
| `GameOver.SoleWinner` | tt_trivia/FFAMultiChoice.py:151-153 | Without a tie, every other player scored strictly less than the winner. |
| `GameOver.EndGame` | tt_trivia/FFAMultiChoice.py:136-157 | `_end_game` never completes:<br>• an empty roster raises `IndexError`;<br>• a tie raises `AttributeError` before anything is said;<br>• otherwise exactly one announcement is made, with the victory sound: the top-ranked player, with their id and score. That player is in the roster, and every other player scored strictly less. Then `is_perfect` raises, so the flawless callout never comes. |
| `Games.NewGame` | tt_trivia/FFAGame.py:46-55 | A new game is STARTING, with an empty roster, a join count of 0, no current question, no skipped questions, an empty task stack and question number 1. It exists exactly when its question set can be built. A lives game asks for 50 questions whatever was requested (FFALives.py:19). |
| `Games.AddPlayer` | tt_trivia/FFAGame.py:70-80 | A join succeeds exactly while gathering players, and otherwise changes nothing. On success the player is stored fresh: score 0 (10 in the lives game, FFALives.py:24-29), streak 0, perfect, no answer. The join count rises by one and nothing else changes. |
| `Games.RejoinCountsTwice` | tt_trivia/FFAGame.py:74-77 | A second join by the same user resets their record, keeps the roster size, and counts the join again. |
| `Games.AddPlayerInv` | tt_trivia/FFAGame.py:74-77 | Joins keep the game invariant: the ids stay distinct, and the join count stays at least the roster size and is 0 exactly when the roster is empty. |
| `Games.ReceiveAnswer` | tt_trivia/FFAMultiChoice.py:15-27 | `receive_answer` raises exactly when no question is set, and checks this before the roster. Non-players and players who voted to skip are ignored. Otherwise the lower-cased, stripped text is recorded only if it is a letter, `skip!` or a normalised choice. Only the author's answer changes. |
| `Games.ReceiveButtonAnswer` | tt_trivia/FFAMultiChoice.py:29-37 | A button press ignores non-players and players who voted to skip. Otherwise it records its letter without checking for a current question. Only that player's answer changes. |
| `Games.SkipIsFinal` | tt_trivia/FFAMultiChoice.py:23-25 | Once a skip vote is recorded, no later typed or pressed answer replaces it (the button path is FFAMultiChoice.py:33-35). |
| `Games.ReceiveAnswerInv` | tt_trivia/FFAMultiChoice.py:15-37 | Recording answers keeps the game invariant. |
| `Games.SetStatus` | tt_trivia/FFAMultiChoice.py:159-192 | `_set_status` stores the status first.<br>• Timed statuses schedule their task on the stack.<br>• FAILED with an error flushes, drops the game and reports the failure.<br>• ENDING drops the game; when anyone joined it first runs `_end_game`, which raises, so the game fails.<br>• STOPPED flushes, drops the game and says it stopped.<br>• Any other status awaits `None`, and the resulting `TypeError` fails the game.<br>Nothing escapes, and only the status and task fields change. |
| `Games.SetStatusInv` | tt_trivia/FFAMultiChoice.py:159-187 | Every status change keeps the game invariant, given that a round only starts once somebody joined. |
| `Games.SetStatusFailsCleanly` | tt_trivia/FFAMultiChoice.py:189-192 | A status change ends FAILED exactly when something raised. In that case the game is flushed and dropped, and the critical-error notice is the last thing said (FFAGame.py:97-101). |
| `Games.Start` | tt_trivia/FFAGame.py:82-86 | `start` fetches the questions only when they are not yet fetched. It succeeds exactly when no fetch is needed or the fetch succeeds, and then the game gathers players with its wait scheduled. A failed fetch escapes with the status unchanged. |
| `Games.StartInv` | tt_trivia/FFAGame.py:82-86 | Starting keeps the game invariant and the guild. |
| `Games.StopLeavesNothing` | tt_trivia/FFAGame.py:103-114 | `end` stops the game:<br>• the stack is empty and no task is pending;<br>• every task on the stack, the pending one included, is cancelled newest first;<br>• the bot drops the game and "Game stopped." is said. |
| `Games.EndInv` | tt_trivia/FFAGame.py:88-89 | Stopping keeps the game invariant and the guild. |
| `Games.WaitPlayersOutcome` | tt_trivia/FFAGame.py:125-152 | After the join window, fewer than one join leads to ENDING and the game is dropped. Otherwise the game goes on to ASKING with the question task scheduled. |
| `Games.AskStandardOutcome` | tt_trivia/FFAMultiChoice.py:39-57 | Asking leads to WAIT_ANSWERS exactly when `say` takes the view and the set is initialised with a question left; otherwise the game fails. When a question is left:<br>• if `say` takes no view (as written), the drawn question becomes current, the set has advanced past it, and the game fails having said only the critical-error notice;<br>• otherwise the question becomes current and is announced with the set's index as its number, followed by the answer-time notice. |
| `Games.AskStandardPosed` | tt_trivia/FFAMultiChoice.py:47-57 | A standard ask that drew a question makes it current and keeps the advanced set. If `say` takes the view, the question is announced with the set's index as its number and the game waits for answers; if not (as written), the game fails having said only the critical-error notice. |
| `Games.AskLivesOutcome` | tt_trivia/FFALives.py:31-51 | A lives game's ask leads to WAIT_ANSWERS or FAILED, never ENDING. The question number never falls. If `say` takes no view (as written), the ask always fails, having said only the critical-error notice. A question is posted only when `say` takes the view; then:<br>• the number rises by exactly one;<br>• the question becomes current;<br>• it is announced under the old number. |
| `Games.RefillOutcome` | tt_trivia/FFALives.py:35-40 | When the set runs dry, it is fetched again once and drawn from again, with the same outcome guarantees, including the failure when `say` takes no view. |
| `Games.PoseLivesOutcome` | tt_trivia/FFALives.py:40-51 | The question number rises by one and the drawn question becomes current either way. The game waits for answers exactly when a question was drawn and `say` takes the view. Otherwise (no question, which raises on `.question`, or the view rejected) it fails having said only the critical-error notice. |
| `Games.EndQuestionOutcome` | tt_trivia/FFAMultiChoice.py:64-92 | A skipped question raises the skip count by exactly one, changes no score and says "Question skipped!". Otherwise every player is scored for the game's mode (the lives branch is FFALives.py:53-81), and the summary and callouts are said. Either way every answer is cleared and the game goes on to ASKING. |
| `Games.RunWaitPlayers` | tt_trivia/FFAGame.py:138-152 | Running the join-window task leads to ASKING, or to ENDING when nobody joined. |
| `Games.RunAsk` | tt_trivia/FFAMultiChoice.py:171-172 | Running the ask task leads to WAIT_ANSWERS or FAILED, in either game mode. When `say` takes no view (as written) it always leads to FAILED. |
| `Games.RunAskStandard` | tt_trivia/FFAMultiChoice.py:39-57 | The same for the standard game's ask. |
| `Games.RunAskLives` | tt_trivia/FFALives.py:31-51 | The same for the lives game's ask. |
| `Games.RunWaitAnswers` | tt_trivia/FFAGame.py:116-123 | Running the answer-wait task, once reached, says the five-second warning with its sound, then always leads to QUESTION_RESULTS. |
| `Games.RunResults` | tt_trivia/FFAMultiChoice.py:175-176 | Running the results task, once reached, leads to ASKING, or to FAILED when something raised. |
| `Games.RunPhaseOutcome` | tt_trivia/FFAMultiChoice.py:168-192 | Running any pending phase keeps the invariant and raises nothing. It leads to the documented next status, and a timed status always has its task scheduled. WAIT_ANSWERS is reached only from ASKING and only when `say` takes the view; when it does not (as written), ASKING always leads to FAILED. A round never reaches ENDING directly from a round status. |
| `Games.QuestionsRunOut` | tt_trivia/FFAMultiChoice.py:43-46 | Once a standard game's questions run out, it goes to ENDING, `_end_game` raises and the game fails. The winner is announced first when there is no tie; on a tie only the error notice is said. This holds whether or not `say` takes the view. |
| `Games.NeverWaitsForAnswers` | tt_trivia/FFAMultiChoice.py:55 | With `say` taking no view, no phase, from any state, leads to WAIT_ANSWERS. QUESTION_RESULTS is reached only from WAIT_ANSWERS, so it is never reached either. |
| `Commands.RecogniseRender` | tt_trivia/TriviaBot.py:158 | Every command spelled from the grammar's pieces fully matches the start pattern, and the pieces are read back. |
| `Commands.RenderRecognise` | tt_trivia/TriviaBot.py:163 | Whatever fully matches the start pattern is exactly the spelling of well-formed pieces. |
| `Commands.ParseStartAccepts` | tt_trivia/TriviaBot.py:163-165 | A start command is rejected exactly when it does not fully match the pattern. |
| `Commands.SearchFromLeftmost` | tt_trivia/TriviaBot.py:170-176 | `pattern.search` finds the leftmost match: nothing matches before the position found, and when nothing is found nothing matches anywhere. |
| `Commands.ModeOfRender` | tt_trivia/TriviaBot.py:176-178 | The mode returned is the mode word written after `start `. |
| `Commands.NumKwargOfRender` | tt_trivia/TriviaBot.py:170-171 | `num` is present exactly when a count is written, and is its value. |
| `Commands.CatKwargOfRender` | tt_trivia/TriviaBot.py:174-175 | `category` is present exactly when `cat …` is written, and is the text after `cat `. |
| `Commands.DiffKwargOfRender` | tt_trivia/TriviaBot.py:172-173 | `difficulty` is the difficulty written. When none is written, it is the first difficulty word inside the category, if any. |
| `Commands.ParseStartRender` | tt_trivia/TriviaBot.py:155-184 | A well-formed command parses to its mode and keyword arguments. The count is read as a number, and the difficulty falls back to the category text's first difficulty word. |
| `Commands.CategoryWordSetsDifficulty` | tt_trivia/TriviaBot.py:172-173 | `start mc cat hardware` asks for category "hardware" with difficulty "hard". |
| `Commands.ZeroCountParses` | tt_trivia/TriviaBot.py:170-171 | `start mc 0` passes the parser with a count of 0; only the question set refuses it. |
| `Commands.ThreeDigitsRejected` | tt_trivia/TriviaBot.py:158 | Three digits do not fit `\d{1,2}`, so `start mc 123` is rejected. |
| `Bots.CommandOf` | tt_trivia/TriviaBot.py:76-78 | A message is a command exactly when its lower-cased text starts with `ttt `. The command is the rest, stripped. |
| `Bots.CleanupGame` | tt_trivia/TriviaBot.py:186-193 | `cleanup_game` removes the guild's game if it has one, and otherwise changes nothing. No other guild is touched. |
| `Bots.SetupGame` | tt_trivia/TriviaBot.py:139-153 | An unparsable command is refused. A parsed command whose mode has no game class (only "mc" has one, TriviaBot.py:31-33), or whose question set cannot be built, escapes as the `TypeError` of the broken `except` clause. Otherwise a new standard game is created for the guild, with the requested count. |
| `Bots.PassToGameInv` | tt_trivia/TriviaBot.py:103-111 | Handing chat to a game keeps every registered game reachable and filed under its guild, and touches only the message's guild. |
| `Bots.OnMessageInv` | tt_trivia/TriviaBot.py:72-101 | Every message keeps every registered game reachable and filed under its own guild, and touches only the message's guild. |
| `Bots.RunGamePhaseInv` | tt_trivia/FFAMultiChoice.py:186-192 | Running a guild's pending phase keeps the registry invariant, raises nothing, and touches only that guild. |
| `Bots.PhasesNeverWait` | tt_trivia/TriviaBot.py:136-137 | Running the phases of a guild's game that is neither waiting for answers nor showing results never brings it to either status: the question is never posted, so no answer is ever taken. |
| `Bots.AskingGameDropped` | tt_trivia/FFAGame.py:97-101 | Once a guild's game runs its ask, the question raises on posting and the failure handler forgets the game: it is no longer registered, no other guild changes, nothing escapes, and the last thing said is the critical-error notice. |
| `Bots.OwnMessagesIgnored` | tt_trivia/TriviaBot.py:73-74 | The bot ignores its own messages entirely. |
| `Bots.CommandsIgnoreCase` | tt_trivia/TriviaBot.py:76-78 | A command means the same in any letter case. |
| `Bots.OneGamePerGuild` | tt_trivia/TriviaBot.py:87-96 | A start command in a guild that has a game is refused with the "already running" reply, and nothing changes. |
| `Bots.StartOutcome` | tt_trivia/TriviaBot.py:87-94 | A start command in a guild without a game ends one of three ways:<br>• an unparsable command gets the "invalid start command" reply;<br>• a game that cannot be built raises with no reply and registers nothing;<br>• otherwise the command is accepted and the game registered and started. A failed fetch leaves the game registered in STARTING. |
| `Bots.EndDropsGame` | tt_trivia/TriviaBot.py:97-99 | `ttt end` drops the guild's game, whatever its status, and says "Game stopped.". |
| `Bots.OtherMessagesChangeNothing` | tt_trivia/TriviaBot.py:77-101 | `help`, `commands`/`command list` and `categories` only reply. `ttt end` without a game, an unknown command, and chat in a guild without a game do nothing. So a message changes the bot, raises or has effects only when it is a start command, `ttt end` with a game, or chat to a running game. |
| `Bots.ChatNeverRaises` | tt_trivia/TriviaBot.py:100-111 | Chat that is not a command never makes a game raise. An answer reaches a game only while it waits for answers, and such a game always has a question. The only reply chat gets is a join confirmation. |
| `Bots.CapitalisedPlayDoesNotJoin` | tt_trivia/TriviaBot.py:106 | Joining is case-sensitive: "Play" does not join a game that is gathering players. |
| `Bots.ZeroCountEscapes` | tt_trivia/TriviaBot.py:139-153 | `ttt start mc 0` parses, but the question set refuses a count of 0 (QuestionSet.py:37). The refusal escapes instead of producing the "invalid start command" reply, and no game is registered. |

## Left out

- Chat, voice and button I/O is not modelled: sending messages, voice clients, playing sounds, `on_ready`, and rendering the button view. Announcements are ordered (message key, optional cue) pairs. Replies are keys for the bot's fixed texts (help, commands list, categories list).
- asyncio timing is not modelled: sleeps, `perf_counter`, and real task creation and cancellation. Each phase body runs as one atomic step (`Games.RunPhase`) triggered by the bot (`Bots.RunGamePhase`). The task stack holds abstract task identifiers, and cancellation is recorded rather than performed.
- `start` in the source awaits the whole game, because `_set_status` awaits each task it creates. The model returns after scheduling the first phase, and later phases are separate steps.
- HTTP, JSON decoding and base64 are not modelled. The fetch result is a parameter (`Questions.Response`): status, API response code, and already-decoded results.
- The category table read from `categories.json` is a parameter (a map from name to id). The order of names in the categories reply is not modelled.
- The source reads categories from two files. The bot lists the keys of the file named by the `CATEGORIES` environment variable (TriviaBot.py:53-54). The question set validates names and looks up ids in `../resource/categories.json` (QuestionSet.py:35-36). The model uses one table for both, so the names listed and the names accepted cannot differ, though in the source they can.
- Randomness is not modelled directly. `random.shuffle` is Fisher-Yates driven by supplied draws. The random version number in the health-cue file names is not modelled.
- Floating point is not modelled. `SKIP_THRESHOLD = 2/3` with `round` becomes the integer threshold `(2n+1) div 3`, which equals it because 2n/3 never lies exactly halfway between two integers. Percentage formatting in messages is not modelled.
- True/false and free-response question sets are not modelled, since no game class uses them: `TFQuestion`, `FreeQuestion`, and `bool(answer)`. The question-type chunk the parser returns is not modelled, since nothing uses it.
- Case folding and `\d` are ASCII only: `str.lower` only changes ASCII letters, and digits are `0`–`9`.
- Logging, `print`, the bot bootstrap and `main`, and the help and command-list texts are not modelled.
- `_clear_last_question` is never called, so it is not modelled. The current question is therefore never cleared between questions.
- `QuestionSet.__repr__` is used only in error messages, so it is not modelled.
- Messages without a guild, and the unused `MAX_PLAYERS` limit, are not modelled.
- The `PLayer`/`Player` spelling mismatch, which would make the source fail on import, is taken as resolved. The `answer` field is added as described above.
- Games.RunPhaseOutcome: states where each status leads and that the invariant holds, but not the content of every announcement of every phase. The announcements are stated in the per-phase lemmas.
