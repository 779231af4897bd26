/**
 * The chat bot around the games: one game per guild, commands prefixed with
 * `ttt ` (case-insensitive), everything else handed to the guild's game.
 * Replies are keys for the bot's fixed texts; what a game says comes back as
 * the game's own effects.
 */
module Bots {
  import opened Wrappers
  import opened Errors
  import opened Strings
  import opened Questions
  import opened Scoring
  import opened Rosters
  import opened Announcements
  import opened Games
  import opened Commands

  const Prefix := "ttt "
  const JoinWord := "play"

  /**
   * Whether the bot's `say` accepts a `view` keyword. It takes a guild, a
   * message and an optional sound file only, so every question the games
   * post with buttons raises.
   */
  const SayTakesView := false

  /**
   * What an `except` clause naming `ValueError | AssertionError` raises when
   * Python tries to match it: the union is not an exception class, so the
   * original exception is replaced by this one instead of being handled.
   */
  const ExceptClauseError := TypeError("catching classes that do not inherit from BaseException is not allowed")

  /** The bot's own replies; all but `PlayerAdded` answer the command's channel. */
  datatype Reply =
    | HelpText
    | CommandList
    | CategoryList(names: set<string>)
    | StartAccepted
    | StartInvalid
    | StartRefused
    | PlayerAdded(name: string)

  datatype Message = Message(authorId: int, authorName: string, guildId: int, content: string)

  /** The bot's state: its own user id, the running game of each guild, and the known categories. */
  datatype Bot = Bot(userId: int, games: map<int, Game>, categories: map<string, int>)

  datatype BotStep = BotStep(bot: Bot, replies: seq<Reply>, effects: Effects, raised: Option<Exception>)

  /** Every registered game is filed under its own guild and is a reachable game. */
  ghost predicate BotInv(b: Bot) {
    forall gid :: gid in b.games ==> b.games[gid].guildId == gid && Inv(b.games[gid])
  }

  predicate HasGame(b: Bot, gid: int) {
    gid in b.games
  }

  /** Nothing else about the bot changes, and games of other guilds stay as they were. */
  ghost predicate OnlyGuild(b: Bot, b': Bot, gid: int) {
    && b'.userId == b.userId
    && b'.categories == b.categories
    && forall other :: other != gid ==>
         (other in b'.games <==> other in b.games) && (other in b.games ==> b'.games[other] == b.games[other])
  }

  /** `cleanup_game`: forget the guild's game if there is one. */
  function CleanupGame(b: Bot, gid: int): (r: Bot)
    ensures !HasGame(r, gid)
    ensures OnlyGuild(b, r, gid)
    ensures HasGame(b, gid) ==> r.games == b.games - {gid}
    ensures !HasGame(b, gid) ==> r == b
  {
    if HasGame(b, gid) then b.(games := b.games - {gid}) else b
  }

  /** Keep the game's new state, or forget the game when the step cleaned it up. */
  function Apply(b: Bot, gid: int, s: Step): (r: Bot)
    ensures OnlyGuild(b, r, gid)
    ensures s.effects.cleanedUp ==> !HasGame(r, gid)
    ensures !s.effects.cleanedUp ==> HasGame(r, gid) && r.games[gid] == s.game
  {
    if s.effects.cleanedUp then CleanupGame(b, gid) else b.(games := b.games[gid := s.game])
  }

  function Quiet(b: Bot): BotStep {
    BotStep(b, [], NoEffects, None)
  }

  function Answer(b: Bot, r: Reply): BotStep {
    BotStep(b, [r], NoEffects, None)
  }

  /** The command text of a message: lower-cased, the prefix removed, stripped; none without the prefix. */
  function CommandOf(content: string): (r: Option<string>)
    ensures r.Some? <==> StartsWith(Lower(content), Prefix)
    ensures r.Some? ==> Prefix + Lower(content)[4..] == Lower(content) && r.value == Strip(Lower(content)[4..])
  {
    var msg := Lower(content);
    if StartsWith(msg, Prefix) then Some(Strip(RemovePrefix(msg, Prefix))) else None
  }

  /**
   * `_setup_game`: an unparsable command is refused; a parsed one whose mode
   * has no game class, or whose question set cannot be built, raises, and
   * the `except` clause turns that into `ExceptClauseError`.
   */
  function SetupGame(cmd: string, gid: int, categories: map<string, int>): (r: Result<Option<Game>, Exception>)
    ensures r == Success(None) <==> ParseStart(cmd).None?
    ensures r.Failure? ==> r.error == ExceptClauseError
    ensures r.Failure? <==>
              ParseStart(cmd).Some? &&
              (ParseStart(cmd).value.0 != "mc" ||
               NewQuestionSet(MultiChoice, ParseStart(cmd).value.1, categories).Failure?)
    ensures r.Success? && r.value.Some? ==>
              && r.value.value.status == Starting && r.value.value.guildId == gid
              && r.value.value.mode == Standard && r.value.value.roster == []
              && Inv(r.value.value)
              && r.value.value.questions.num == NumArg(ParseStart(cmd).value.1)
  {
    match ParseStart(cmd)
    case None => Success(None)
    case Some((mode, kwargs)) =>
      if mode != "mc" then Failure(ExceptClauseError)
      else
        match NewGame(Standard, kwargs, gid, categories)
        case Failure(_) => Failure(ExceptClauseError)
        case Success(g) => Success(Some(g))
  }

  /** `ttt start ...`: only in a guild without a game; a created game is registered and started. */
  function StartCommand(b: Bot, gid: int, cmd: string, resp: Response, draws: seq<seq<nat>>): BotStep
    requires DrawsFit(resp.results, draws)
  {
    if HasGame(b, gid) then Answer(b, StartRefused)
    else
      match SetupGame(cmd, gid, b.categories)
      case Failure(e) => BotStep(b, [], NoEffects, Some(e))
      case Success(None) => Answer(b, StartInvalid)
      case Success(Some(g)) =>
        var s := Start(g, resp, draws);
        BotStep(Apply(b, gid, s), [StartAccepted], s.effects, s.raised)
  }

  /**
   * `_pass_message_to_game`: while gathering players a message starting with
   * `play` (case-sensitive, unlike commands) joins its author; while waiting
   * for answers the message is an answer; otherwise it is dropped.
   */
  function PassToGame(b: Bot, m: Message): BotStep
    requires HasGame(b, m.guildId)
  {
    var g := b.games[m.guildId];
    if g.status == GettingPlayers then
      if StartsWith(m.content, JoinWord) then
        var (g', added) := AddPlayer(g, m.authorName, m.authorId);
        BotStep(b.(games := b.games[m.guildId := g']), if added then [PlayerAdded(m.authorName)] else [], NoEffects, None)
      else Quiet(b)
    else if g.status == WaitAnswers then
      match ReceiveAnswer(g, m.authorId, m.content)
      case Failure(e) => BotStep(b, [], NoEffects, Some(e))
      case Success(g') => Quiet(b.(games := b.games[m.guildId := g']))
    else Quiet(b)
  }

  /**
   * `on_message`. The response and draws are what starting a game would
   * fetch and shuffle with; no other message uses them.
   */
  function OnMessage(b: Bot, m: Message, resp: Response, draws: seq<seq<nat>>): BotStep
    requires DrawsFit(resp.results, draws)
  {
    if m.authorId == b.userId then Quiet(b)
    else
      match CommandOf(m.content)
      case Some(cmd) =>
        if cmd == "help" then Answer(b, HelpText)
        else if cmd == "commands" || cmd == "command list" then Answer(b, CommandList)
        else if cmd == "categories" then Answer(b, CategoryList(b.categories.Keys))
        else if StartsWith(cmd, StartWord) then StartCommand(b, m.guildId, cmd, resp, draws)
        else if cmd == "end" then
          if HasGame(b, m.guildId) then
            var s := End(b.games[m.guildId]);
            BotStep(Apply(b, m.guildId, s), [], s.effects, s.raised)
          else Quiet(b)
        else Quiet(b)
      case None =>
        if HasGame(b, m.guildId) then PassToGame(b, m) else Quiet(b)
  }

  /** The guild's pending phase task runs; its game is kept or forgotten as the phase says. */
  function RunGamePhase(b: Bot, gid: int, resp: Response, draws: seq<seq<nat>>): BotStep
    requires DrawsFit(resp.results, draws)
  {
    if HasGame(b, gid) && b.games[gid].scheduled.Some? && b.games[gid].questions.qType == MultiChoice then
      var s := RunPhase(b.games[gid], resp, draws, SayTakesView);
      BotStep(Apply(b, gid, s), [], s.effects, s.raised)
    else Quiet(b)
  }

  // ---------------------------------------------------------------------------
  // Properties
  // ---------------------------------------------------------------------------

  lemma ApplyInv(b: Bot, gid: int, s: Step)
    requires BotInv(b)
    requires !s.effects.cleanedUp ==> s.game.guildId == gid && Inv(s.game)
    ensures BotInv(Apply(b, gid, s))
  {
  }

  lemma StoreGameInv(b: Bot, gid: int, g: Game)
    requires BotInv(b) && g.guildId == gid && Inv(g)
    ensures BotInv(b.(games := b.games[gid := g]))
    ensures OnlyGuild(b, b.(games := b.games[gid := g]), gid)
  {
  }

  lemma JoinInv(b: Bot, m: Message)
    requires BotInv(b) && HasGame(b, m.guildId)
    ensures var g := b.games[m.guildId];
            BotInv(b.(games := b.games[m.guildId := AddPlayer(g, m.authorName, m.authorId).0]))
    ensures var g := b.games[m.guildId];
            OnlyGuild(b, b.(games := b.games[m.guildId := AddPlayer(g, m.authorName, m.authorId).0]), m.guildId)
  {
    var g := b.games[m.guildId];
    AddPlayerInv(g, m.authorName, m.authorId);
    StoreGameInv(b, m.guildId, AddPlayer(g, m.authorName, m.authorId).0);
  }

  lemma AnswerInv(b: Bot, m: Message)
    requires BotInv(b) && HasGame(b, m.guildId)
    requires ReceiveAnswer(b.games[m.guildId], m.authorId, m.content).Success?
    ensures var g' := ReceiveAnswer(b.games[m.guildId], m.authorId, m.content).value;
            BotInv(b.(games := b.games[m.guildId := g'])) && OnlyGuild(b, b.(games := b.games[m.guildId := g']), m.guildId)
  {
    var g := b.games[m.guildId];
    ReceiveAnswerInv(g, m.authorId, m.content, "");
    StoreGameInv(b, m.guildId, ReceiveAnswer(g, m.authorId, m.content).value);
  }

  lemma PassToGameInv(b: Bot, m: Message)
    requires BotInv(b) && HasGame(b, m.guildId)
    ensures BotInv(PassToGame(b, m).bot)
    ensures OnlyGuild(b, PassToGame(b, m).bot, m.guildId)
  {
    var g := b.games[m.guildId];
    if g.status == GettingPlayers {
      if StartsWith(m.content, JoinWord) {
        JoinInv(b, m);
      }
    } else if g.status == WaitAnswers {
      if ReceiveAnswer(g, m.authorId, m.content).Success? {
        AnswerInv(b, m);
      }
    }
  }

  lemma StartCommandInv(b: Bot, gid: int, cmd: string, resp: Response, draws: seq<seq<nat>>)
    requires BotInv(b) && DrawsFit(resp.results, draws)
    ensures BotInv(StartCommand(b, gid, cmd, resp, draws).bot)
    ensures OnlyGuild(b, StartCommand(b, gid, cmd, resp, draws).bot, gid)
  {
    if !HasGame(b, gid) {
      match SetupGame(cmd, gid, b.categories)
      case Failure(_) =>
      case Success(None) =>
      case Success(Some(g)) =>
        StartInv(g, resp, draws);
        ApplyInv(b, gid, Start(g, resp, draws));
    }
  }

  lemma EndCommandInv(b: Bot, gid: int)
    requires BotInv(b) && HasGame(b, gid)
    ensures BotInv(Apply(b, gid, End(b.games[gid])))
  {
    EndInv(b.games[gid]);
    ApplyInv(b, gid, End(b.games[gid]));
  }

  lemma CommandInv(b: Bot, m: Message, cmd: string, resp: Response, draws: seq<seq<nat>>)
    requires BotInv(b) && DrawsFit(resp.results, draws) && m.authorId != b.userId
    requires CommandOf(m.content) == Some(cmd)
    ensures BotInv(OnMessage(b, m, resp, draws).bot)
    ensures OnlyGuild(b, OnMessage(b, m, resp, draws).bot, m.guildId)
  {
    if cmd == "help" || cmd == "commands" || cmd == "command list" || cmd == "categories" {
    } else if StartsWith(cmd, StartWord) {
      StartCommandInv(b, m.guildId, cmd, resp, draws);
      assert OnMessage(b, m, resp, draws) == StartCommand(b, m.guildId, cmd, resp, draws);
    } else if cmd == "end" && HasGame(b, m.guildId) {
      EndCommandInv(b, m.guildId);
    }
  }

  /**
   * Handling a message keeps every registered game reachable and filed under
   * its guild, and touches no guild but the message's own.
   */
  lemma OnMessageInv(b: Bot, m: Message, resp: Response, draws: seq<seq<nat>>)
    requires BotInv(b) && DrawsFit(resp.results, draws)
    ensures BotInv(OnMessage(b, m, resp, draws).bot)
    ensures OnlyGuild(b, OnMessage(b, m, resp, draws).bot, m.guildId)
  {
    if m.authorId != b.userId {
      match CommandOf(m.content)
      case Some(cmd) =>
        CommandInv(b, m, cmd, resp, draws);
      case None =>
        if HasGame(b, m.guildId) {
          PassToGameInv(b, m);
          assert OnMessage(b, m, resp, draws) == PassToGame(b, m);
        }
    }
  }

  /** Running a phase keeps the registry reachable, raises nothing, and touches only its guild. */
  lemma RunGamePhaseInv(b: Bot, gid: int, resp: Response, draws: seq<seq<nat>>)
    requires BotInv(b) && DrawsFit(resp.results, draws)
    ensures BotInv(RunGamePhase(b, gid, resp, draws).bot)
    ensures OnlyGuild(b, RunGamePhase(b, gid, resp, draws).bot, gid)
    ensures RunGamePhase(b, gid, resp, draws).raised == None
  {
    if HasGame(b, gid) && b.games[gid].scheduled.Some? {
      RunPhaseOutcome(b.games[gid], resp, draws, SayTakesView);
    }
  }

  /**
   * A guild's game that is neither waiting for answers nor showing results
   * never gets there by running its phases: posting a question raises first,
   * so no answer is ever taken.
   */
  lemma PhasesNeverWait(b: Bot, gid: int, resp: Response, draws: seq<seq<nat>>)
    requires DrawsFit(resp.results, draws)
    requires HasGame(b, gid) && b.games[gid].status != WaitAnswers && b.games[gid].status != QuestionResults
    ensures var r := RunGamePhase(b, gid, resp, draws).bot;
            HasGame(r, gid) ==> r.games[gid].status != WaitAnswers && r.games[gid].status != QuestionResults
  {
    if b.games[gid].scheduled.Some? && b.games[gid].questions.qType == MultiChoice {
      NeverWaitsForAnswers(b.games[gid], resp, draws);
    }
  }

  /**
   * As written, a guild's game is gone once its ask runs: posting the
   * question raises, the failure handler cleans the game up, and the last
   * thing said is the critical-error notice.
   */
  lemma AskingGameDropped(b: Bot, gid: int, resp: Response, draws: seq<seq<nat>>)
    requires BotInv(b) && DrawsFit(resp.results, draws)
    requires HasGame(b, gid) && b.games[gid].scheduled.Some? && b.games[gid].status == Asking
    requires b.games[gid].questions.qType == MultiChoice
    ensures var r := RunGamePhase(b, gid, resp, draws);
            && !HasGame(r.bot, gid) && OnlyGuild(b, r.bot, gid) && r.raised == None
            && |r.effects.said| > 0 && r.effects.said[|r.effects.said| - 1] == Say(CriticalError)
  {
    RunPhaseOutcome(b.games[gid], resp, draws, SayTakesView);
  }

  /** The bot ignores what it says itself. */
  lemma OwnMessagesIgnored(b: Bot, m: Message, resp: Response, draws: seq<seq<nat>>)
    requires DrawsFit(resp.results, draws) && m.authorId == b.userId
    ensures OnMessage(b, m, resp, draws) == BotStep(b, [], NoEffects, None)
  {
  }

  /** Commands are case-insensitive: a command message means the same lower-cased. */
  lemma CommandsIgnoreCase(b: Bot, m: Message, resp: Response, draws: seq<seq<nat>>)
    requires DrawsFit(resp.results, draws) && CommandOf(m.content).Some?
    ensures OnMessage(b, m.(content := Lower(m.content)), resp, draws) == OnMessage(b, m, resp, draws)
  {
    LowerIdempotent(m.content);
  }

  /** A second game cannot start in a guild while one is registered there. */
  lemma OneGamePerGuild(b: Bot, m: Message, resp: Response, draws: seq<seq<nat>>)
    requires DrawsFit(resp.results, draws) && m.authorId != b.userId && HasGame(b, m.guildId)
    requires CommandOf(m.content).Some? && StartsWith(CommandOf(m.content).value, StartWord)
    ensures OnMessage(b, m, resp, draws) == BotStep(b, [StartRefused], NoEffects, None)
  {
    var cmd := CommandOf(m.content).value;
    assert cmd != "help" && cmd != "commands" && cmd != "command list" && cmd != "categories" by {
      StartsWithAt(cmd, StartWord, 0);
      StartsWithAt(cmd, StartWord, 1);
    }
  }

  /**
   * A start command in a guild without a game: refused with a reply when it
   * does not parse; raising with no reply and nothing registered when the game
   * cannot be built; otherwise accepted, registered and started. A failed
   * question fetch escapes as well, and then the game stays registered in
   * its starting status.
   */
  lemma StartOutcome(b: Bot, m: Message, resp: Response, draws: seq<seq<nat>>)
    requires DrawsFit(resp.results, draws) && m.authorId != b.userId && !HasGame(b, m.guildId)
    requires CommandOf(m.content).Some? && StartsWith(CommandOf(m.content).value, StartWord)
    ensures var cmd := CommandOf(m.content).value;
            var r := OnMessage(b, m, resp, draws);
            && (SetupGame(cmd, m.guildId, b.categories) == Success(None) ==> r == BotStep(b, [StartInvalid], NoEffects, None))
            && (SetupGame(cmd, m.guildId, b.categories).Failure? ==> r == BotStep(b, [], NoEffects, Some(ExceptClauseError)))
            && (SetupGame(cmd, m.guildId, b.categories).Success? && SetupGame(cmd, m.guildId, b.categories).value.Some? ==>
                  && r.replies == [StartAccepted] && HasGame(r.bot, m.guildId)
                  && (r.raised.None? <==> resp.status == 200 && resp.responseCode == 0)
                  && (r.raised.None? ==> r.bot.games[m.guildId].status == GettingPlayers)
                  && (r.raised.Some? ==> r.bot.games[m.guildId].status == Starting))
  {
    var cmd := CommandOf(m.content).value;
    assert cmd != "help" && cmd != "commands" && cmd != "command list" && cmd != "categories" by {
      StartsWithAt(cmd, StartWord, 0);
      StartsWithAt(cmd, StartWord, 1);
    }
    match SetupGame(cmd, m.guildId, b.categories)
    case Failure(_) =>
    case Success(None) =>
    case Success(Some(g)) =>
      assert UrlReady(g.questions) by {
        assert Valid(g.questions);
      }
  }

  /** `ttt end` drops the guild's game, whatever its status, and says the game stopped. */
  lemma EndDropsGame(b: Bot, m: Message, resp: Response, draws: seq<seq<nat>>)
    requires BotInv(b) && DrawsFit(resp.results, draws) && m.authorId != b.userId && HasGame(b, m.guildId)
    requires CommandOf(m.content) == Some("end")
    ensures !HasGame(OnMessage(b, m, resp, draws).bot, m.guildId)
    ensures OnMessage(b, m, resp, draws).effects.said == [Announcements.Say(Announcements.GameStopped)]
    ensures OnMessage(b, m, resp, draws).raised == None
  {
    StopLeavesNothing(b.games[m.guildId]);
  }

  /**
   * The help, command-list and category commands only reply; `ttt end`
   * without a game, an unknown command, and chat in a guild without a game
   * are ignored. So a message changes the bot or raises only when it is a
   * start command, `ttt end` with a game, or chat to a running game.
   */
  lemma OtherMessagesChangeNothing(b: Bot, m: Message, resp: Response, draws: seq<seq<nat>>)
    requires DrawsFit(resp.results, draws) && m.authorId != b.userId
    ensures var r := OnMessage(b, m, resp, draws);
            var cmd := CommandOf(m.content);
            && (cmd == Some("help") ==> r == BotStep(b, [HelpText], NoEffects, None))
            && (cmd == Some("commands") || cmd == Some("command list") ==> r == BotStep(b, [CommandList], NoEffects, None))
            && (cmd == Some("categories") ==> r == BotStep(b, [CategoryList(b.categories.Keys)], NoEffects, None))
            && (cmd == Some("end") && !HasGame(b, m.guildId) ==> r == BotStep(b, [], NoEffects, None))
            && (cmd.None? && !HasGame(b, m.guildId) ==> r == BotStep(b, [], NoEffects, None))
    ensures var r := OnMessage(b, m, resp, draws);
            var cmd := CommandOf(m.content);
            r.bot != b || r.raised.Some? || r.effects != NoEffects ==>
              || (cmd.Some? && StartsWith(cmd.value, StartWord))
              || (cmd == Some("end") && HasGame(b, m.guildId))
              || (cmd.None? && HasGame(b, m.guildId))
  {
  }

  /**
   * Chat that is not a command never makes a game raise: answers only reach
   * a game that waits for answers, and such a game always has a question.
   */
  lemma ChatNeverRaises(b: Bot, m: Message, resp: Response, draws: seq<seq<nat>>)
    requires BotInv(b) && DrawsFit(resp.results, draws) && CommandOf(m.content).None?
    ensures OnMessage(b, m, resp, draws).raised == None
    ensures OnMessage(b, m, resp, draws).replies != [] ==>
              HasGame(b, m.guildId) && b.games[m.guildId].status == GettingPlayers && StartsWith(m.content, JoinWord)
  {
  }

  /** Joining is case-sensitive: "Play" does not join, although commands ignore case. */
  lemma CapitalisedPlayDoesNotJoin(b: Bot, m: Message, resp: Response, draws: seq<seq<nat>>)
    requires DrawsFit(resp.results, draws) && m.content == "Play"
    requires HasGame(b, m.guildId) && b.games[m.guildId].status == GettingPlayers
    ensures OnMessage(b, m, resp, draws) == BotStep(b, [], NoEffects, None)
  {
    assert m.content[0] == 'P';
    assert Lower(m.content)[0] == 'p';
    StartsWithAt(Lower(m.content), Prefix, 0);
    StartsWithAt(m.content, JoinWord, 0);
  }

  lemma ZeroCountCommand(content: string)
    requires content == "ttt start mc 0"
    ensures CommandOf(content) == Some("start mc 0")
  {
    assert Lower(content) == content;
    StartsWithConcat(Prefix, "start mc 0");
    assert content == Prefix + "start mc 0";
    StripUnpadded("start mc 0");
  }

  /**
   * `ttt start mc 0` passes the command pattern, but the question set refuses
   * a count of 0; the refusal escapes instead of reaching the user as the
   * "invalid start command" reply, and no game is registered.
   */
  lemma ZeroCountEscapes(b: Bot, m: Message, resp: Response, draws: seq<seq<nat>>)
    requires DrawsFit(resp.results, draws) && m.authorId != b.userId && !HasGame(b, m.guildId)
    requires m.content == "ttt start mc 0"
    ensures OnMessage(b, m, resp, draws) == BotStep(b, [], NoEffects, Some(ExceptClauseError))
  {
    ZeroCountCommand(m.content);
    ZeroCountParses("start mc 0");
    StartsWithConcat(StartWord, "mc 0");
    assert "start mc 0" == StartWord + "mc 0";
    StartOutcome(b, m, resp, draws);
  }
}
