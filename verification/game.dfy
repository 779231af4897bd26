/**
 * The free-for-all game: its status machine, the player roster, the question
 * supply, and the task stack. Each timed phase (waiting for players, asking,
 * waiting for answers, showing results) is a task that `_set_status`
 * schedules; here scheduling records which task is pending (`scheduled`) and
 * `RunPhase` runs the pending task's body to completion, including the status
 * change it ends with. Sleeps are the passage of time between scheduling and
 * running. Chat input (joining, answering, `ttt end`) arrives between phases.
 */
module Games {
  import opened Wrappers
  import opened Errors
  import opened Strings
  import opened Players
  import opened Rosters
  import opened Questions
  import opened Announcements
  import opened Scoring
  import opened Ranking
  import opened GameOver
  import opened Tasks

  datatype Status =
    | Starting
    | GettingPlayers
    | Asking
    | WaitAnswers
    | QuestionResults
    | Ending
    | Failed
    | Stopped

  /** The statuses whose work is a scheduled task. */
  predicate Timed(s: Status) {
    s.GettingPlayers? || s.Asking? || s.WaitAnswers? || s.QuestionResults?
  }

  const AnswerSeconds := 20
  const JoinSeconds := 20
  const LivesQuestions := 50
  const LivesStartingScore := 10
  const GameName := "Multiple Choice FFA"

  datatype Game = Game(
    mode: Mode,
    status: Status,
    roster: Roster,
    playerCount: int,
    questions: QuestionSet,
    guildId: int,
    current: Option<MCQuestion>,
    skipped: nat,
    tasks: TaskStack,
    scheduled: Option<TaskId>,
    nextTask: TaskId,
    questionNumber: int)

  /** What a step hands to the bot: announcements, cancelled tasks, and whether the bot dropped the game. */
  datatype Effects = Effects(said: seq<Announcement>, cancelled: seq<TaskId>, cleanedUp: bool)

  const NoEffects := Effects([], [], false)

  function Said(a: seq<Announcement>): Effects {
    Effects(a, [], false)
  }

  function Then(a: Effects, b: Effects): Effects {
    Effects(a.said + b.said, a.cancelled + b.cancelled, a.cleanedUp || b.cleanedUp)
  }

  /** The game after a step, the step's effects, and an exception that escaped to the caller. */
  datatype Step = Step(game: Game, effects: Effects, raised: Option<Exception>)

  function After(e: Effects, s: Step): Step {
    s.(effects := Then(e, s.effects))
  }

  // ---------------------------------------------------------------------------
  // Invariant
  // ---------------------------------------------------------------------------

  /**
   * What every reachable game satisfies: the pending task, if any, belongs to
   * a timed status and is the newest entry on the stack; user ids are
   * distinct; the counter of joins is at least the roster size and is zero
   * exactly when nobody joined; the question set is a valid multiple-choice
   * set; a lives game draws 50 questions at a time.
   */
  predicate Inv(g: Game) {
    && Bounded(g.tasks)
    && (g.scheduled.Some? ==>
          Timed(g.status) && |g.tasks.items| > 0 && g.tasks.items[|g.tasks.items| - 1] == g.scheduled)
    && DistinctIds(g.roster)
    && g.playerCount >= |g.roster|
    && (g.playerCount == 0 <==> |g.roster| == 0)
    && g.questions.qType == MultiChoice
    && Valid(g.questions)
    && (g.mode == Lives ==> g.questions.num == LivesQuestions)
    && (InRound(g.status) ==> g.playerCount > 0)
    && (g.status.WaitAnswers? || g.status.QuestionResults? ==> g.current.Some?)
  }

  /** The statuses of a running round: only reached once somebody joined. */
  predicate InRound(s: Status) {
    s.Asking? || s.WaitAnswers? || s.QuestionResults?
  }

  // ---------------------------------------------------------------------------
  // Construction
  // ---------------------------------------------------------------------------

  /** The keyword arguments the game passes on: the lives game always asks for 50 questions. */
  function GameKwargs(mode: Mode, kwargs: Kwargs): Kwargs {
    match mode
    case Standard => kwargs
    case Lives => kwargs.(num := Some(LivesQuestions))
  }

  /**
   * `FFAMultiChoice(q_set_kwargs, g_id, ...)` and `FFALives(...)`: a game in
   * the starting status with nobody in it, over a multiple-choice question
   * set built from the keyword arguments; building the set can fail.
   */
  function NewGame(mode: Mode, kwargs: Kwargs, guildId: int, categories: map<string, int>)
    : (r: Result<Game, Exception>)
    ensures r.Success? <==> NewQuestionSet(MultiChoice, GameKwargs(mode, kwargs), categories).Success?
    ensures mode == Lives ==>
              (r.Success? <==> CategoryArg(kwargs) in categories && DifficultyArg(kwargs) in Difficulties)
    ensures r.Success? ==>
              && Inv(r.value)
              && r.value.status == Starting && r.value.roster == [] && r.value.playerCount == 0
              && r.value.current == None && r.value.skipped == 0 && r.value.tasks == Empty
              && r.value.scheduled == None && r.value.guildId == guildId && r.value.mode == mode
              && r.value.questionNumber == 1 && !r.value.questions.initialized
              && r.value.questions.num == (if mode == Lives then LivesQuestions else NumArg(kwargs))
  {
    var qs :- NewQuestionSet(MultiChoice, GameKwargs(mode, kwargs), categories);
    Success(Game(mode, Starting, [], 0, qs, guildId, None, 0, Empty, None, 0, 1))
  }

  // ---------------------------------------------------------------------------
  // Chat input
  // ---------------------------------------------------------------------------

  /** A player as they join: no points, no streak, perfect; the lives game gives 10 lives. */
  function Joined(name: string, id: int, mode: Mode): Player {
    var p := NewPlayer((name, id, 0, 0, true));
    if mode == Lives then p.(score := LivesStartingScore) else p
  }

  /**
   * `add_player`: only while gathering players. The membership test compares
   * the builtin `id` function with the keys, so it never finds a match: a user
   * who joins again is re-created from scratch and counted again.
   */
  function AddPlayer(g: Game, name: string, id: int): (r: (Game, bool))
    ensures r.1 <==> g.status == GettingPlayers
    ensures !r.1 ==> r.0 == g
    ensures r.1 ==>
              && Lookup(r.0.roster, id) == Some(Joined(name, id, g.mode))
              && r.0.playerCount == g.playerCount + 1
              && (forall other :: other != id ==> Lookup(r.0.roster, other) == Lookup(g.roster, other))
              && r.0 == g.(roster := r.0.roster, playerCount := r.0.playerCount)
  {
    if g.status == GettingPlayers then
      var p := Joined(name, id, g.mode);
      var roster := Put(g.roster, p);
      LookupPut(g.roster, p, id);
      forall other ensures other != id ==> Lookup(roster, other) == Lookup(g.roster, other) {
        LookupPut(g.roster, p, other);
      }
      (g.(roster := roster, playerCount := g.playerCount + 1), true)
    else (g, false)
  }

  /**
   * Joining twice resets the player, keeps the roster size, and still counts
   * a join, so the counter runs ahead of the roster.
   */
  lemma RejoinCountsTwice(g: Game, name: string, id: int)
    requires g.status == GettingPlayers && Has(g.roster, id)
    ensures |AddPlayer(g, name, id).0.roster| == |g.roster|
    ensures AddPlayer(g, name, id).0.playerCount == g.playerCount + 1
    ensures Lookup(AddPlayer(g, name, id).0.roster, id) == Some(Joined(name, id, g.mode))
  {
    LookupPut(g.roster, Joined(name, id, g.mode), id);
  }

  /**
   * `receive_answer`: the typed text is lower-cased and stripped. Without a
   * current question it raises. Messages from non-players are ignored, a skip
   * vote is final, and otherwise the text is recorded when it is a letter, the
   * skip token, or one of the choices.
   */
  function ReceiveAnswer(g: Game, author: int, content: string): (r: Result<Game, Exception>)
    ensures g.current.None? <==> r.Failure?
    ensures r.Success? ==> r.value == g.(roster := r.value.roster) && SameIds(g.roster, r.value.roster)
    ensures r.Success? ==> forall other :: other != author ==> Lookup(r.value.roster, other) == Lookup(g.roster, other)
    ensures r.Success? ==>
              Lookup(r.value.roster, author) ==
                match Lookup(g.roster, author)
                case None => None
                case Some(p) =>
                  if p.answer != Some(SkipToken) && Accepts(g.current.value, Normalise(content))
                  then Some(p.(answer := Some(Normalise(content)))) else Some(p)
  {
    var ans := Normalise(content);
    match g.current
    case None => Failure(RuntimeError("record_answer called when no question was set."))
    case Some(q) =>
      var roster :=
        match Lookup(g.roster, author)
        case None => g.roster
        case Some(p) => if p.answer != Some(SkipToken) && Accepts(q, ans) then SetAnswer(g.roster, author, Some(ans)) else g.roster;
      forall other ensures Lookup(SetAnswer(g.roster, author, Some(ans)), other) ==
          if other == author && Lookup(g.roster, author).Some? then Some(Lookup(g.roster, author).value.(answer := Some(ans)))
          else Lookup(g.roster, other) {
        LookupSetAnswer(g.roster, author, Some(ans), other);
      }
      Success(g.(roster := roster))
  }

  /**
   * `receive_button_answer`: a button press records its letter for a player
   * who has not voted to skip. Buttons stay live until the results are
   * shown, so no status is checked.
   */
  function ReceiveButtonAnswer(g: Game, user: int, letter: string): (r: Game)
    ensures r == g.(roster := r.roster) && SameIds(g.roster, r.roster)
    ensures forall other :: other != user ==> Lookup(r.roster, other) == Lookup(g.roster, other)
    ensures Lookup(r.roster, user) ==
              match Lookup(g.roster, user)
              case None => None
              case Some(p) => if p.answer != Some(SkipToken) then Some(p.(answer := Some(letter))) else Some(p)
  {
    var roster :=
      match Lookup(g.roster, user)
      case None => g.roster
      case Some(p) => if p.answer != Some(SkipToken) then SetAnswer(g.roster, user, Some(letter)) else g.roster;
    forall other ensures Lookup(SetAnswer(g.roster, user, Some(letter)), other) ==
        if other == user && Lookup(g.roster, user).Some? then Some(Lookup(g.roster, user).value.(answer := Some(letter)))
        else Lookup(g.roster, other) {
      LookupSetAnswer(g.roster, user, Some(letter), other);
    }
    g.(roster := roster)
  }

  /** A skip vote, once recorded, survives every later typed or pressed answer. */
  lemma SkipIsFinal(g: Game, id: int, author: int, content: string, letter: string)
    requires Lookup(g.roster, id).Some? && Lookup(g.roster, id).value.answer == Some(SkipToken)
    ensures ReceiveAnswer(g, author, content).Success? ==>
              Lookup(ReceiveAnswer(g, author, content).value.roster, id) == Lookup(g.roster, id)
    ensures Lookup(ReceiveButtonAnswer(g, author, letter).roster, id) == Lookup(g.roster, id)
  {
  }

  // ---------------------------------------------------------------------------
  // Status changes
  // ---------------------------------------------------------------------------

  /** Records a new pending task on the stack. */
  function Schedule(g: Game): (r: Game)
    ensures r.scheduled == Some(g.nextTask) && Bounded(r.tasks)
    ensures |r.tasks.items| > 0 && r.tasks.items[|r.tasks.items| - 1] == Some(g.nextTask)
  {
    g.(tasks := Push(g.tasks, Some(g.nextTask)), scheduled := Some(g.nextTask), nextTask := g.nextTask + 1)
  }

  /** Cancels every task on the stack, newest first, and empties it. */
  function FlushTasks(g: Game): Game {
    g.(tasks := Empty, scheduled := None)
  }

  /** `_handle_failed_game`: flush, drop the game, report the failure. */
  function HandleFailed(g: Game): Step {
    Step(FlushTasks(g), Effects([Say(CriticalError)], CancelOrder(g.tasks), true), None)
  }

  /** `_stop_game`: flush, drop the game, report the stop. */
  function StopGame(g: Game): Step {
    Step(FlushTasks(g), Effects([Say(GameStopped)], CancelOrder(g.tasks), true), None)
  }

  /**
   * `_set_status`: store the status, then act on it. A failure carrying its
   * exception is handled at once. Timed statuses schedule their task. Ending
   * runs `_end_game` when anyone joined, which always raises, so the game
   * fails; otherwise the game is dropped. Stopping flushes and drops the game.
   * Any other status appends `None` to the stack and awaits it, which raises
   * `TypeError`, so the game fails.
   */
  function SetStatus(g: Game, s: Status, err: Option<Exception>): (r: Step)
    ensures r.raised == None
    ensures Timed(s) ==> r.game == Schedule(g.(status := s)) && r.effects == NoEffects
    ensures !Timed(s) ==> r.game.scheduled == None
    ensures s == Stopped ==> r.game.status == Stopped && r.effects == Effects([Say(GameStopped)], CancelOrder(g.tasks), true)
    ensures s == Failed && err.Some? ==>
              r.game.status == Failed && r.effects == Effects([Say(CriticalError)], CancelOrder(g.tasks), true)
    ensures s == Ending && g.playerCount <= 0 ==> r.game.status == Ending && r.effects == Effects([], [], true)
    ensures s == Ending && g.playerCount > 0 ==>
              r.game.status == Failed && r.effects.cleanedUp && r.game.tasks == Empty
              && r.effects.said == EndGame(g.roster).said + [Say(CriticalError)]
    ensures (s == Failed && err.None?) || s == Starting ==>
              r.game.status == Failed && r.effects == Effects([Say(CriticalError)], CancelOrder(Push(g.tasks, None)), true)
    ensures r.game == g.(status := r.game.status, tasks := r.game.tasks, scheduled := r.game.scheduled, nextTask := r.game.nextTask)
  {
    var g := g.(status := s);
    if s == Failed && err.Some? then HandleFailed(g)
    else
      match s
      case GettingPlayers => Step(Schedule(g), NoEffects, None)
      case Asking => Step(Schedule(g), NoEffects, None)
      case WaitAnswers => Step(Schedule(g), NoEffects, None)
      case QuestionResults => Step(Schedule(g), NoEffects, None)
      case Ending =>
        if g.playerCount > 0 then
          var report := EndGame(g.roster);
          After(Said(report.said), HandleFailed(g.(status := Failed)))
        else Step(g.(scheduled := None), Effects([], [], true), None)
      case Stopped => StopGame(g)
      case _ => HandleFailed(g.(tasks := Push(g.tasks, None), status := Failed))
  }

  /** A phase body raising: the exception is caught and the game fails with it. */
  function Raise(g: Game, e: Exception): Step {
    SetStatus(g, Failed, Some(e))
  }

  // ---------------------------------------------------------------------------
  // Entry points
  // ---------------------------------------------------------------------------

  /**
   * `start`: fetch the questions unless already fetched, then start gathering
   * players. A failed fetch escapes to the caller before any status change,
   * so the game keeps its starting status.
   */
  function Start(g: Game, resp: Response, draws: seq<seq<nat>>): (r: Step)
    requires g.questions.qType == MultiChoice
    requires DrawsFit(resp.results, draws)
    ensures r.raised.None? <==>
              g.questions.initialized || (UrlReady(g.questions) && resp.status == 200 && resp.responseCode == 0)
    ensures r.raised.None? ==> r.game.status == GettingPlayers && r.game.scheduled.Some? && r.effects == NoEffects
    ensures r.raised.Some? ==> r.game == g.(questions := g.questions.(index := 0)) && r.effects == NoEffects
  {
    if !g.questions.initialized then
      var o := Initialize(g.questions, resp, draws);
      var g := g.(questions := o.state);
      if o.raised.Some? then Step(g, NoEffects, o.raised)
      else SetStatus(g, GettingPlayers, None)
    else SetStatus(g, GettingPlayers, None)
  }

  /** `end` (the `ttt end` command): stop the game. */
  function End(g: Game): Step {
    SetStatus(g, Stopped, None)
  }

  /**
   * Stopping leaves nothing to run: the stack is empty, no task is pending,
   * every task that was on the stack is cancelled newest first (the pending
   * one included), the bot drops the game, and "Game stopped." is said.
   */
  lemma StopLeavesNothing(g: Game)
    requires Inv(g)
    ensures End(g).game.status == Stopped
    ensures End(g).game.tasks == Empty && End(g).game.scheduled == None
    ensures End(g).effects == Effects([Say(GameStopped)], CancelOrder(g.tasks), true)
    ensures g.scheduled.Some? ==> g.scheduled.value in CancelOrder(g.tasks)
  {
    if g.scheduled.Some? {
      var items := g.tasks.items;
      var n := |items| - 1;
      assert items == items[..n] + [items[n]];
      assert Reverse(items) == [items[n]] + Reverse(items[..n]);
      LiveConcat([items[n]], Reverse(items[..n]));
    }
  }

  // ---------------------------------------------------------------------------
  // Phase bodies
  // ---------------------------------------------------------------------------

  /** `_wait_players`: announce the join window twice, then start asking or give up. */
  function WaitPlayersPhase(g: Game): Step {
    var window := [Say(JoinWindow(JoinSeconds)), Say(JoinWindow(JoinSeconds / 2))];
    if g.playerCount < 1 then
      After(Said(window + [Say(NobodyPlayed)]), SetStatus(g, Ending, None))
    else
      var intro := GameStarting(GameName, g.questions.difficulty, g.questions.category, Names(g.roster));
      After(Said(window + [SayWith(intro, Prepare)]), SetStatus(g, Asking, None))
  }

  /** The question and its answer-time notice; at most four choices are shown, lettered a to d. */
  function AskAnnouncements(number: int, q: MCQuestion): seq<Announcement> {
    var shown := if |q.choices| <= 4 then q.choices else q.choices[..4];
    [Say(QuestionText(number, q.question, shown)), SayWith(AnswerTime(AnswerSeconds), QuestionReady)]
  }

  /**
   * What posting a question with its button view raises: the bot's `say`
   * takes a guild, a message and an optional sound file, and no `view`.
   */
  const ViewRejected := TypeError("say() got an unexpected keyword argument 'view'")

  /**
   * `_ask_next_question` of the standard game: draw the next question and
   * post it, numbered by the set's index; with none left the game ends.
   * Posting passes the button view to `say` as `view`; `sayTakesView` says
   * whether `say` accepts it. When it does not, as in the bot as written,
   * the question is current and drawn but posting raises, so the game fails
   * with nothing asked. When it does, the question and the answer-time notice
   * are said and the game waits for answers.
   */
  function AskStandard(g: Game, sayTakesView: bool): Step {
    match Next(g.questions)
    case Failure(e) => Raise(g, e)
    case Success((qs, None)) => SetStatus(g.(questions := qs), Ending, None)
    case Success((qs, Some(q))) =>
      var g := g.(questions := qs, current := Some(q));
      if sayTakesView then After(Said(AskAnnouncements(GetIndex(qs), q)), SetStatus(g, WaitAnswers, None))
      else Raise(g, ViewRejected)
  }

  /**
   * `_ask_next_question` of the lives game: with none left, fetch a fresh
   * batch and draw again; the question is numbered by the game's own counter.
   * A draw that still finds nothing leaves no question, and reading its text
   * raises.
   */
  function AskLives(g: Game, resp: Response, draws: seq<seq<nat>>, sayTakesView: bool): Step
    requires g.questions.qType == MultiChoice
    requires DrawsFit(resp.results, draws)
  {
    match Next(g.questions)
    case Failure(e) => Raise(g, e)
    case Success((qs, Some(q))) => PoseLives(g.(questions := qs), Some(q), sayTakesView)
    case Success((qs, None)) =>
      var o := Initialize(qs, resp, draws);
      var g := g.(questions := o.state);
      if o.raised.Some? then Raise(g, o.raised.value)
      else
        match Next(o.state)
        case Failure(e) => Raise(g, e)
        case Success((qs, q)) => PoseLives(g.(questions := qs), q, sayTakesView)
  }

  /**
   * The lives game's posting: the question becomes current and the counter
   * rises before anything is said; then reading a missing question's text
   * raises, and posting a question raises unless `say` accepts the view.
   */
  function PoseLives(g: Game, q: Option<MCQuestion>, sayTakesView: bool): Step {
    var number := g.questionNumber;
    var g := g.(current := q, questionNumber := number + 1);
    match q
    case None => Raise(g, AttributeError("question"))
    case Some(q) =>
      if sayTakesView then After(Said(AskAnnouncements(number, q)), SetStatus(g, WaitAnswers, None))
      else Raise(g, ViewRejected)
  }

  /** `_wait_answers`: the five-second warning, then the results. */
  function WaitAnswersPhase(g: Game): Step {
    After(Said([SayWith(SecondsLeft(5), Countdown5)]), SetStatus(g, QuestionResults, None))
  }

  /** What the results phase says after a question that was not skipped. */
  function ResultsAnnouncements(q: MCQuestion, roster: Roster, mode: Mode): seq<Announcement>
    requires q.answerIndex < 4
  {
    var summary := Summary(LetterOf(q.answerIndex), q.answer, Names(Picked(q, roster, mode, true)),
                           Heading(mode), Scores(ScoreRound(q, roster, mode)));
    var report := match mode
      case Standard => StreakReport(Picked(q, roster, mode, true))
      case Lives => HealthReport(Picked(q, roster, mode, false));
    [Say(summary)] + report
  }

  /**
   * `_end_question`: a skipped question only bumps the skip counter; otherwise
   * every player is scored and the summary and callouts are said. Either way
   * the answers are cleared and the next question is asked. The correct
   * letter is read from "abcd", which raises for a position past the fourth.
   */
  function EndQuestionPhase(g: Game): Step {
    if SkipQuestion(g.roster) then
      After(Said([Say(QuestionSkipped)]),
            SetStatus(g.(skipped := g.skipped + 1, roster := ResetAnswers(g.roster)), Asking, None))
    else
      match g.current
      case None => Raise(g, AttributeError("answer_index"))
      case Some(q) =>
        if q.answerIndex >= 4 then Raise(g, IndexError("string index out of range"))
        else
          var scored := ScoreRound(q, g.roster, g.mode);
          After(Said(ResultsAnnouncements(q, g.roster, g.mode)),
                SetStatus(g.(roster := ResetAnswers(scored)), Asking, None))
  }

  /**
   * Runs the pending task's body. The response and draws are what a lives
   * game's refetch would receive; other phases ignore them. `sayTakesView`
   * is passed on to the ask.
   */
  function RunPhase(g: Game, resp: Response, draws: seq<seq<nat>>, sayTakesView: bool): (r: Step)
    requires g.scheduled.Some?
    requires g.questions.qType == MultiChoice
    requires DrawsFit(resp.results, draws)
  {
    var g := g.(scheduled := None);
    match g.status
    case GettingPlayers => WaitPlayersPhase(g)
    case Asking => if g.mode == Standard then AskStandard(g, sayTakesView) else AskLives(g, resp, draws, sayTakesView)
    case WaitAnswers => WaitAnswersPhase(g)
    case QuestionResults => EndQuestionPhase(g)
    case _ => Step(g, NoEffects, None)
  }

  // ---------------------------------------------------------------------------
  // What the phases preserve and lead to
  // ---------------------------------------------------------------------------

  /** Every status change keeps the invariant, given that rounds only start once somebody joined. */
  lemma SetStatusInv(g: Game, s: Status, err: Option<Exception>)
    requires Inv(g)
    requires InRound(s) ==> g.playerCount > 0
    requires s.WaitAnswers? || s.QuestionResults? ==> g.current.Some?
    ensures Inv(SetStatus(g, s, err).game)
  {
  }

  lemma AddPlayerInv(g: Game, name: string, id: int)
    requires Inv(g)
    ensures Inv(AddPlayer(g, name, id).0)
  {
    if g.status == GettingPlayers {
      PutDistinct(g.roster, Joined(name, id, g.mode));
      LookupPut(g.roster, Joined(name, id, g.mode), id);
    }
  }

  lemma ReceiveAnswerInv(g: Game, author: int, content: string, letter: string)
    requires Inv(g)
    ensures ReceiveAnswer(g, author, content).Success? ==> Inv(ReceiveAnswer(g, author, content).value)
    ensures Inv(ReceiveButtonAnswer(g, author, letter))
  {
    if ReceiveAnswer(g, author, content).Success? {
      SameIdsDistinct(g.roster, ReceiveAnswer(g, author, content).value.roster);
    }
    SameIdsDistinct(g.roster, ReceiveButtonAnswer(g, author, letter).roster);
  }

  lemma StartInv(g: Game, resp: Response, draws: seq<seq<nat>>)
    requires Inv(g) && DrawsFit(resp.results, draws)
    ensures Inv(Start(g, resp, draws).game) && Start(g, resp, draws).game.guildId == g.guildId
  {
    if !g.questions.initialized {
      var o := Initialize(g.questions, resp, draws);
      SetStatusInv(g.(questions := o.state), GettingPlayers, None);
    } else {
      SetStatusInv(g, GettingPlayers, None);
    }
  }

  lemma EndInv(g: Game)
    requires Inv(g)
    ensures Inv(End(g).game) && End(g).game.guildId == g.guildId
  {
    SetStatusInv(g, Stopped, None);
  }

  /**
   * After a phase body, the game fails exactly when the body raised (or ran
   * into `_end_game`): then it is flushed, dropped, and the last thing said
   * is the critical-error notice.
   */
  predicate FailedCleanly(r: Step) {
    r.game.status == Failed ==>
      && r.game.tasks == Empty && r.game.scheduled == None && r.effects.cleanedUp
      && |r.effects.said| > 0 && r.effects.said[|r.effects.said| - 1] == Say(CriticalError)
  }

  lemma SetStatusFailsCleanly(g: Game, s: Status, err: Option<Exception>)
    ensures FailedCleanly(SetStatus(g, s, err))
  {
  }

  lemma AfterFailsCleanly(e: Effects, st: Step)
    requires FailedCleanly(st)
    ensures FailedCleanly(After(e, st))
  {
    if st.game.status == Failed {
      var said := e.said + st.effects.said;
      assert said[|said| - 1] == st.effects.said[|st.effects.said| - 1];
    }
  }

  lemma {:induction false} WaitPlayersOutcome(g: Game)
    requires Inv(g) && g.scheduled.None? && g.status == GettingPlayers
    ensures var r := WaitPlayersPhase(g);
            && Inv(r.game) && r.raised == None && r.game.guildId == g.guildId
            && r.game.status == (if g.playerCount < 1 then Ending else Asking)
            && (g.playerCount >= 1 ==> r.game.scheduled.Some?)
            && (g.playerCount < 1 ==> r.effects.cleanedUp)
  {
    if g.playerCount < 1 {
      SetStatusInv(g, Ending, None);
    } else {
      SetStatusInv(g, Asking, None);
    }
  }

  /**
   * The standard ask. With a question left it becomes current and is drawn;
   * then, when `say` takes no view, posting raises and the game fails having
   * said only the critical-error notice; when it does, the question is
   * announced with the set's index as its number and the game waits for
   * answers. The game waits for answers in no other case.
   */
  lemma {:induction false} AskStandardOutcome(g: Game, sayTakesView: bool)
    requires Inv(g) && g.scheduled.None? && g.status == Asking && g.mode == Standard
    ensures var r := AskStandard(g, sayTakesView);
            && Inv(r.game) && r.raised == None && r.game.guildId == g.guildId && FailedCleanly(r)
            && (r.game.status == WaitAnswers || r.game.status == Failed)
            && (r.game.status == WaitAnswers <==>
                  sayTakesView && g.questions.initialized && g.questions.index < g.questions.num && g.questions.index < |g.questions.questions|)
            && (r.game.status == WaitAnswers ==>
                  && r.game.current == Some(g.questions.questions[g.questions.index])
                  && r.effects.said == AskAnnouncements(GetQuestionNo(g.questions), g.questions.questions[g.questions.index]))
    ensures var r := AskStandard(g, sayTakesView);
            !sayTakesView && g.questions.initialized && g.questions.index < g.questions.num && g.questions.index < |g.questions.questions| ==>
              && r.game.status == Failed
              && r.game.current == Some(g.questions.questions[g.questions.index])
              && r.game.questions.index == g.questions.index + 1
              && r.effects.said == [Say(CriticalError)]
  {
    match Next(g.questions)
    case Failure(e) =>
      SetStatusInv(g, Failed, Some(e));
    case Success((qs, None)) =>
      NextKeepsValid(g.questions);
      SetStatusInv(g.(questions := qs), Ending, None);
    case Success((qs, Some(q))) =>
      AskStandardPosed(g, qs, q, sayTakesView);
  }

  /** The standard ask when a question was drawn: posted, or failed on the view. */
  lemma AskStandardPosed(g: Game, qs: QuestionSet, q: MCQuestion, sayTakesView: bool)
    requires Inv(g) && g.scheduled.None? && g.status == Asking && g.mode == Standard
    requires Next(g.questions) == Success((qs, Some(q)))
    ensures var r := AskStandard(g, sayTakesView);
            && Inv(r.game) && r.raised == None && r.game.guildId == g.guildId && FailedCleanly(r)
            && r.game.current == Some(q) && r.game.questions == qs
            && (sayTakesView ==> r.game.status == WaitAnswers && r.effects.said == AskAnnouncements(GetIndex(qs), q))
            && (!sayTakesView ==> r.game.status == Failed && r.effects.said == [Say(CriticalError)])
  {
    NextKeepsValid(g.questions);
    SetStatusInv(g.(questions := qs, current := Some(q)), WaitAnswers, None);
    SetStatusInv(g.(questions := qs, current := Some(q)), Failed, Some(ViewRejected));
  }

  /**
   * The lives ask, including the refetch when the set runs dry. It never
   * ends the game and never lowers the question number. When `say` takes no
   * view it always fails, having said only the critical-error notice; when
   * it does, a posted question raises the number by one, becomes current and
   * is announced under the old number.
   */
  lemma {:induction false} AskLivesOutcome(g: Game, resp: Response, draws: seq<seq<nat>>, sayTakesView: bool)
    requires Inv(g) && g.scheduled.None? && g.status == Asking && g.mode == Lives
    requires DrawsFit(resp.results, draws)
    ensures var r := AskLives(g, resp, draws, sayTakesView);
            && Inv(r.game) && r.raised == None && r.game.guildId == g.guildId && FailedCleanly(r)
            && (Timed(r.game.status) ==> r.game.scheduled.Some?)
            && (r.game.status == WaitAnswers || r.game.status == Failed)
            && r.game.questionNumber >= g.questionNumber
            && (r.game.status == WaitAnswers ==>
                  && sayTakesView
                  && r.game.questionNumber == g.questionNumber + 1
                  && r.game.current.Some?
                  && r.effects.said == AskAnnouncements(g.questionNumber, r.game.current.value))
            && (!sayTakesView ==> r.game.status == Failed && r.effects.said == [Say(CriticalError)])
  {
    match Next(g.questions)
    case Failure(e) =>
      SetStatusInv(g, Failed, Some(e));
    case Success((qs, Some(q))) =>
      NextKeepsValid(g.questions);
      PoseLivesOutcome(g.(questions := qs), Some(q), sayTakesView);
    case Success((qs, None)) =>
      RefillOutcome(g, qs, resp, draws, sayTakesView);
  }

  /** The branch where the set ran dry and is fetched again before asking. */
  lemma {:induction false} RefillOutcome(g: Game, qs: QuestionSet, resp: Response, draws: seq<seq<nat>>, sayTakesView: bool)
    requires Inv(g) && g.scheduled.None? && g.status == Asking && g.mode == Lives
    requires DrawsFit(resp.results, draws)
    requires Next(g.questions) == Success((qs, None))
    ensures var r := AskLives(g, resp, draws, sayTakesView);
            && Inv(r.game) && r.raised == None && r.game.guildId == g.guildId && FailedCleanly(r)
            && (Timed(r.game.status) ==> r.game.scheduled.Some?)
            && (r.game.status == WaitAnswers || r.game.status == Failed)
            && r.game.questionNumber >= g.questionNumber
            && (r.game.status == WaitAnswers ==>
                  && sayTakesView
                  && r.game.questionNumber == g.questionNumber + 1
                  && r.game.current.Some?
                  && r.effects.said == AskAnnouncements(g.questionNumber, r.game.current.value))
            && (!sayTakesView ==> r.game.status == Failed && r.effects.said == [Say(CriticalError)])
  {
    NextKeepsValid(g.questions);
    var o := Initialize(qs, resp, draws);
    var g' := g.(questions := o.state);
    if o.raised.Some? {
      SetStatusInv(g', Failed, o.raised);
    } else {
      match Next(o.state)
      case Failure(e) =>
        SetStatusInv(g', Failed, Some(e));
      case Success((qs2, q)) =>
        NextKeepsValid(o.state);
        PoseLivesOutcome(g'.(questions := qs2), q, sayTakesView);
    }
  }

  /**
   * Posting in the lives game: the number rises by one and the question
   * becomes current either way. The game waits for answers exactly when
   * there is a question and `say` takes the view; otherwise it fails having
   * said only the critical-error notice.
   */
  lemma {:induction false} PoseLivesOutcome(g: Game, q: Option<MCQuestion>, sayTakesView: bool)
    requires Inv(g) && g.scheduled.None? && g.status == Asking
    ensures var r := PoseLives(g, q, sayTakesView);
            && Inv(r.game) && r.raised == None && r.game.guildId == g.guildId && FailedCleanly(r)
            && (Timed(r.game.status) ==> r.game.scheduled.Some?)
            && r.game.questionNumber == g.questionNumber + 1
            && r.game.current == q
            && (r.game.status == WaitAnswers <==> q.Some? && sayTakesView)
            && (q.None? || !sayTakesView ==> r.game.status == Failed && r.effects.said == [Say(CriticalError)])
            && (q.Some? && sayTakesView ==> r.effects.said == AskAnnouncements(g.questionNumber, q.value))
  {
    var g' := g.(current := q, questionNumber := g.questionNumber + 1);
    SetStatusInv(g', Failed, Some(AttributeError("question")));
    SetStatusInv(g', Failed, Some(ViewRejected));
    if q.Some? {
      SetStatusInv(g', WaitAnswers, None);
    }
  }

  lemma {:induction false} EndQuestionOutcome(g: Game)
    requires Inv(g) && g.scheduled.None? && g.status == QuestionResults
    ensures var r := EndQuestionPhase(g);
            && Inv(r.game) && r.raised == None && r.game.guildId == g.guildId && FailedCleanly(r)
            && (r.game.status == Asking || r.game.status == Failed)
            && (SkipQuestion(g.roster) ==>
                  && r.game.status == Asking
                  && r.game.skipped == g.skipped + 1
                  && r.game.roster == ResetAnswers(g.roster)
                  && r.effects.said == [Say(QuestionSkipped)])
            && (!SkipQuestion(g.roster) ==> r.game.skipped == g.skipped)
            && (!SkipQuestion(g.roster) && g.current.value.answerIndex < 4 ==>
                  && r.game.status == Asking
                  && r.game.roster == ResetAnswers(ScoreRound(g.current.value, g.roster, g.mode))
                  && r.effects.said == ResultsAnnouncements(g.current.value, g.roster, g.mode))
            && (r.game.status == Asking ==> forall i :: 0 <= i < |r.game.roster| ==> r.game.roster[i].answer == None)
  {
    if SkipQuestion(g.roster) {
      var g' := g.(skipped := g.skipped + 1, roster := ResetAnswers(g.roster));
      SameIdsDistinct(g.roster, g'.roster);
      SetStatusInv(g', Asking, None);
    } else {
      var q := g.current.value;
      SetStatusInv(g, Failed, Some(IndexError("string index out of range")));
      if q.answerIndex < 4 {
        var scored := ScoreRound(q, g.roster, g.mode);
        var g' := g.(roster := ResetAnswers(scored));
        assert SameIds(g.roster, scored);
        SameIdsDistinct(g.roster, scored);
        SameIdsDistinct(scored, g'.roster);
        SetStatusInv(g', Asking, None);
      }
    }
  }

  lemma RunWaitPlayers(g: Game, resp: Response, draws: seq<seq<nat>>, sayTakesView: bool)
    requires Inv(g) && g.scheduled.Some? && g.status == GettingPlayers
    requires DrawsFit(resp.results, draws)
    ensures var r := RunPhase(g, resp, draws, sayTakesView);
            && Inv(r.game) && r.raised == None && r.game.guildId == g.guildId && FailedCleanly(r)
            && (g.status == GettingPlayers ==> r.game.status == (if g.playerCount < 1 then Ending else Asking))
            && (g.status == Asking ==> r.game.status == WaitAnswers || r.game.status == Failed)
            && (g.status == Asking && !sayTakesView ==> r.game.status == Failed)
            && (g.status == WaitAnswers ==> r.game.status == QuestionResults && r.effects.said == [SayWith(SecondsLeft(5), Countdown5)])
            && (g.status == QuestionResults ==> r.game.status == Asking || r.game.status == Failed)
            && (r.game.status == WaitAnswers ==> g.status == Asking && sayTakesView)
            && (Timed(r.game.status) ==> r.game.scheduled.Some?)
            && (InRound(g.status) ==> r.game.status != Ending)
  {
    var g' := g.(scheduled := None);
    assert RunPhase(g, resp, draws, sayTakesView) == WaitPlayersPhase(g');
    WaitPlayersOutcome(g');
    SetStatusFailsCleanly(g', Ending, None);
    SetStatusFailsCleanly(g', Asking, None);
    AfterFailsCleanly(Said([Say(JoinWindow(JoinSeconds)), Say(JoinWindow(JoinSeconds / 2)), Say(NobodyPlayed)]), SetStatus(g', Ending, None));
  }

  lemma RunAsk(g: Game, resp: Response, draws: seq<seq<nat>>, sayTakesView: bool)
    requires Inv(g) && g.scheduled.Some? && g.status == Asking
    requires DrawsFit(resp.results, draws)
    ensures var r := RunPhase(g, resp, draws, sayTakesView);
            && Inv(r.game) && r.raised == None && r.game.guildId == g.guildId && FailedCleanly(r)
            && (g.status == GettingPlayers ==> r.game.status == (if g.playerCount < 1 then Ending else Asking))
            && (g.status == Asking ==> r.game.status == WaitAnswers || r.game.status == Failed)
            && (g.status == Asking && !sayTakesView ==> r.game.status == Failed)
            && (g.status == WaitAnswers ==> r.game.status == QuestionResults && r.effects.said == [SayWith(SecondsLeft(5), Countdown5)])
            && (g.status == QuestionResults ==> r.game.status == Asking || r.game.status == Failed)
            && (r.game.status == WaitAnswers ==> g.status == Asking && sayTakesView)
            && (Timed(r.game.status) ==> r.game.scheduled.Some?)
            && (InRound(g.status) ==> r.game.status != Ending)
  {
    if g.mode == Standard {
      RunAskStandard(g, resp, draws, sayTakesView);
    } else {
      RunAskLives(g, resp, draws, sayTakesView);
    }
  }

  lemma RunAskStandard(g: Game, resp: Response, draws: seq<seq<nat>>, sayTakesView: bool)
    requires Inv(g) && g.scheduled.Some? && g.status == Asking && g.mode == Standard
    requires DrawsFit(resp.results, draws)
    ensures var r := RunPhase(g, resp, draws, sayTakesView);
            && Inv(r.game) && r.raised == None && r.game.guildId == g.guildId && FailedCleanly(r)
            && (g.status == GettingPlayers ==> r.game.status == (if g.playerCount < 1 then Ending else Asking))
            && (g.status == Asking ==> r.game.status == WaitAnswers || r.game.status == Failed)
            && (g.status == Asking && !sayTakesView ==> r.game.status == Failed)
            && (g.status == WaitAnswers ==> r.game.status == QuestionResults && r.effects.said == [SayWith(SecondsLeft(5), Countdown5)])
            && (g.status == QuestionResults ==> r.game.status == Asking || r.game.status == Failed)
            && (r.game.status == WaitAnswers ==> g.status == Asking && sayTakesView)
            && (Timed(r.game.status) ==> r.game.scheduled.Some?)
            && (InRound(g.status) ==> r.game.status != Ending)
  {
    var g' := g.(scheduled := None);
    assert RunPhase(g, resp, draws, sayTakesView) == AskStandard(g', sayTakesView);
    AskStandardOutcome(g', sayTakesView);
  }

  lemma RunAskLives(g: Game, resp: Response, draws: seq<seq<nat>>, sayTakesView: bool)
    requires Inv(g) && g.scheduled.Some? && g.status == Asking && g.mode == Lives
    requires DrawsFit(resp.results, draws)
    ensures var r := RunPhase(g, resp, draws, sayTakesView);
            && Inv(r.game) && r.raised == None && r.game.guildId == g.guildId && FailedCleanly(r)
            && (g.status == GettingPlayers ==> r.game.status == (if g.playerCount < 1 then Ending else Asking))
            && (g.status == Asking ==> r.game.status == WaitAnswers || r.game.status == Failed)
            && (g.status == Asking && !sayTakesView ==> r.game.status == Failed)
            && (g.status == WaitAnswers ==> r.game.status == QuestionResults && r.effects.said == [SayWith(SecondsLeft(5), Countdown5)])
            && (g.status == QuestionResults ==> r.game.status == Asking || r.game.status == Failed)
            && (r.game.status == WaitAnswers ==> g.status == Asking && sayTakesView)
            && (Timed(r.game.status) ==> r.game.scheduled.Some?)
            && (InRound(g.status) ==> r.game.status != Ending)
  {
    var g' := g.(scheduled := None);
    assert RunPhase(g, resp, draws, sayTakesView) == AskLives(g', resp, draws, sayTakesView);
    AskLivesOutcome(g', resp, draws, sayTakesView);
  }

  lemma RunWaitAnswers(g: Game, resp: Response, draws: seq<seq<nat>>, sayTakesView: bool)
    requires Inv(g) && g.scheduled.Some? && g.status == WaitAnswers
    requires DrawsFit(resp.results, draws)
    ensures var r := RunPhase(g, resp, draws, sayTakesView);
            && Inv(r.game) && r.raised == None && r.game.guildId == g.guildId && FailedCleanly(r)
            && (g.status == GettingPlayers ==> r.game.status == (if g.playerCount < 1 then Ending else Asking))
            && (g.status == Asking ==> r.game.status == WaitAnswers || r.game.status == Failed)
            && (g.status == Asking && !sayTakesView ==> r.game.status == Failed)
            && (g.status == WaitAnswers ==> r.game.status == QuestionResults && r.effects.said == [SayWith(SecondsLeft(5), Countdown5)])
            && (g.status == QuestionResults ==> r.game.status == Asking || r.game.status == Failed)
            && (r.game.status == WaitAnswers ==> g.status == Asking && sayTakesView)
            && (Timed(r.game.status) ==> r.game.scheduled.Some?)
            && (InRound(g.status) ==> r.game.status != Ending)
  {
    var g' := g.(scheduled := None);
    assert RunPhase(g, resp, draws, sayTakesView) == WaitAnswersPhase(g');
    SetStatusInv(g', QuestionResults, None);
  }

  lemma RunResults(g: Game, resp: Response, draws: seq<seq<nat>>, sayTakesView: bool)
    requires Inv(g) && g.scheduled.Some? && g.status == QuestionResults
    requires DrawsFit(resp.results, draws)
    ensures var r := RunPhase(g, resp, draws, sayTakesView);
            && Inv(r.game) && r.raised == None && r.game.guildId == g.guildId && FailedCleanly(r)
            && (g.status == GettingPlayers ==> r.game.status == (if g.playerCount < 1 then Ending else Asking))
            && (g.status == Asking ==> r.game.status == WaitAnswers || r.game.status == Failed)
            && (g.status == Asking && !sayTakesView ==> r.game.status == Failed)
            && (g.status == WaitAnswers ==> r.game.status == QuestionResults && r.effects.said == [SayWith(SecondsLeft(5), Countdown5)])
            && (g.status == QuestionResults ==> r.game.status == Asking || r.game.status == Failed)
            && (r.game.status == WaitAnswers ==> g.status == Asking && sayTakesView)
            && (Timed(r.game.status) ==> r.game.scheduled.Some?)
            && (InRound(g.status) ==> r.game.status != Ending)
  {
    var g' := g.(scheduled := None);
    assert RunPhase(g, resp, draws, sayTakesView) == EndQuestionPhase(g');
    EndQuestionOutcome(g');
  }

  /**
   * Running the pending phase keeps the invariant and leads to the documented
   * next status: gathering players leads to asking, or to ending when nobody
   * joined; asking leads to waiting for answers when `say` takes the view
   * and a question is posted, and otherwise fails; waiting for answers leads
   * to the results; the results lead to the next question with every answer
   * cleared. No round reaches the ending status directly. Nothing escapes.
   */
  lemma RunPhaseOutcome(g: Game, resp: Response, draws: seq<seq<nat>>, sayTakesView: bool)
    requires Inv(g) && g.scheduled.Some?
    requires DrawsFit(resp.results, draws)
    ensures var r := RunPhase(g, resp, draws, sayTakesView);
            && Inv(r.game) && r.raised == None && r.game.guildId == g.guildId && FailedCleanly(r)
            && (g.status == GettingPlayers ==> r.game.status == (if g.playerCount < 1 then Ending else Asking))
            && (g.status == Asking ==> r.game.status == WaitAnswers || r.game.status == Failed)
            && (g.status == Asking && !sayTakesView ==> r.game.status == Failed)
            && (g.status == WaitAnswers ==> r.game.status == QuestionResults && r.effects.said == [SayWith(SecondsLeft(5), Countdown5)])
            && (g.status == QuestionResults ==> r.game.status == Asking || r.game.status == Failed)
            && (r.game.status == WaitAnswers ==> g.status == Asking && sayTakesView)
            && (Timed(r.game.status) ==> r.game.scheduled.Some?)
            && (InRound(g.status) ==> r.game.status != Ending)
  {
    match g.status
    case GettingPlayers => RunWaitPlayers(g, resp, draws, sayTakesView);
    case Asking => RunAsk(g, resp, draws, sayTakesView);
    case WaitAnswers => RunWaitAnswers(g, resp, draws, sayTakesView);
    case QuestionResults => RunResults(g, resp, draws, sayTakesView);
  }

  /**
   * As written, no phase ever leads to waiting for answers, whatever the
   * game's state: every question posted raises. So the results phase, which
   * only waiting for answers leads to, is never reached either.
   */
  lemma NeverWaitsForAnswers(g: Game, resp: Response, draws: seq<seq<nat>>)
    requires g.scheduled.Some? && g.questions.qType == MultiChoice
    requires DrawsFit(resp.results, draws)
    ensures RunPhase(g, resp, draws, false).game.status != WaitAnswers
    ensures RunPhase(g, resp, draws, false).game.status == QuestionResults ==> g.status == WaitAnswers
  {
    var g' := g.(scheduled := None);
    if g.status == Asking && g.mode == Lives {
      match Next(g'.questions)
      case Failure(e) =>
      case Success((qs, Some(q))) =>
      case Success((qs, None)) =>
        var o := Initialize(qs, resp, draws);
        if o.raised.None? {
          match Next(o.state)
          case Failure(e) =>
          case Success((qs2, q)) =>
        }
    }
  }

  /**
   * Once a standard game's questions run out it goes to the ending status,
   * `_end_game` raises, and the game fails, after announcing the winner when
   * there is no tie. (As written this needs a set drained without a question
   * being posted, since posting raises.)
   */
  lemma QuestionsRunOut(g: Game, sayTakesView: bool)
    requires Inv(g) && g.scheduled.None? && g.status == Asking && g.mode == Standard
    requires g.questions.initialized && g.questions.index >= g.questions.num
    ensures AskStandard(g, sayTakesView).game.status == Failed
    ensures AskStandard(g, sayTakesView).effects.said == EndGame(g.roster).said + [Say(CriticalError)]
    ensures |g.roster| > 0 && !Tie(Sort(g.roster)) ==> |AskStandard(g, sayTakesView).effects.said| == 2
    ensures |g.roster| > 0 && Tie(Sort(g.roster)) ==> AskStandard(g, sayTakesView).effects.said == [Say(CriticalError)]
  {
  }
}
