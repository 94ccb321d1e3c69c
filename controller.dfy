/**
 * The GUI controller (src/game_controller.cpp): a state machine over the
 * GUI state manager that drives the engine. Transitions are guarded by the
 * current state and by the flag that says a lifeline message is on screen.
 * The countdown timer is replaced by a boolean saying whether it has run
 * out.
 */
module GameControllers {
  import opened GuiStates
  import GameEngines
  import GameLogics
  import opened Wrappers

  const MESSAGE_ASK_FRIEND := "Your friend thinks the answer is: "
  const MESSAGE_HINT := "HINT: "

  /** The character `'A' + i` narrowed to a `char` byte, as the message for Ask a Friend builds it. */
  function OptionLetter(i: int): (c: char)
    ensures 0 <= i < 4 ==> c == "ABCD"[i]
  {
    (('A' as int + i) % 256) as char
  }

  /**
   * How many times `endGame` has run in the current round when the screen
   * is `state`, or None for the screens outside a round. RESULT_DISPLAY
   * after a wrong answer comes after the call; after a correct one, before
   * it.
   */
  function EndsSoFar(state: GameState, result: GameResult): Option<nat>
  {
    match state
    case GameIntro => Some(0)
    case QuestionDisplay => Some(0)
    case AnswerProcessing => Some(0)
    case PrizeLadderScreen => Some(0)
    case ResultDisplay => Some(if result == Correct then 0 else 1)
    case GameOver => Some(1)
    case FinalScore => Some(1)
    case _ => None
  }

  class GameController {
    const engine: GameEngines.GameEngine
    const stateManager: GameStateManager
    var hiddenOptions: seq<int>
    var lifelineMessage: string
    var showLifelineMessage: bool
    /** The duration last given to the controller's timer. */
    var timerDuration: int
    /** `engine.gamesEnded` when the current player was set up. */
    ghost var roundStart: nat

    ghost predicate Valid()
      reads this, engine, engine.player, engine.prizeLadder, engine.gameLogic, engine.gameLogic.states, engine.profileManager
    {
      engine.Valid() && engine.kind == GameEngines.GuiEngine && stateManager !in engine.Repr()
    }

    /**
     * `endGame` runs exactly once per round: not yet while the round is
     * being played, once from the moment it is lost, exhausted, timed out
     * or won, through GAME_OVER and FINAL_SCORE.
     */
    ghost predicate RoundConsistent()
      reads this, engine, stateManager
    {
      roundStart <= engine.gamesEnded
      && var expected := EndsSoFar(stateManager.currentState, stateManager.lastResult);
      expected.Some? ==> engine.gamesEnded - roundStart == expected.value
    }

    constructor (engine: GameEngines.GameEngine)
      requires engine.Valid() && engine.kind == GameEngines.GuiEngine
      ensures Valid() && RoundConsistent() && this.engine == engine && fresh(stateManager)
      ensures stateManager.currentState == Splash && stateManager.lastResult == NoResult
      ensures hiddenOptions == [] && lifelineMessage == "" && !showLifelineMessage && timerDuration == 30
    {
      this.engine := engine;
      stateManager := new GameStateManager();
      hiddenOptions, lifelineMessage, showLifelineMessage, timerDuration := [], "", false, 30;
      roundStart := engine.gamesEnded;
    }

    /** The renderer's direct move to a screen. */
    method SetState(newState: GameState)
      modifies stateManager`currentState
      ensures stateManager.currentState == newState
    {
      stateManager.SetState(newState);
    }

    /** Only on the player-setup screen: set the player up and show the intro; the round starts here. */
    method SubmitPlayerSetup(name: string, gender: string)
      requires Valid()
      modifies this`roundStart, stateManager`currentState
      modifies engine.player`name, engine.player`gender, engine.player`totalWinnings, engine.player`currentLevel
      modifies engine.player`questionsAnswered, engine.profileManager`profiles, engine.gameLogic.states
      modifies engine.prizeLadder`current, engine`correctAnswerStreak, engine`totalPointsEarned
      ensures Valid()
      ensures old(stateManager.currentState) != PlayerSetup ==>
        unchanged(stateManager, engine.Repr()) && roundStart == old(roundStart)
      ensures old(stateManager.currentState) == PlayerSetup ==>
        && stateManager.currentState == GameIntro && stateManager.lastResult == old(stateManager.lastResult)
        && engine.player.name == name && engine.player.gender == gender
        && engine.correctAnswerStreak == 0 && engine.totalPointsEarned == 0
        && engine.prizeLadder.CurrentLevel() == 0 && engine.player.totalWinnings == 0
        && engine.gamesEnded == old(engine.gamesEnded)
        && RoundConsistent()
      ensures old(RoundConsistent()) ==> RoundConsistent()
    {
      if stateManager.GetState() == PlayerSetup {
        engine.SetupPlayer(name, gender);
        stateManager.SetState(GameIntro);
        roundStart := engine.gamesEnded;
      }
    }

    /**
     * Ignored while a message is shown or outside the question screens.
     * Otherwise the answer is processed; a wrong one ends the game at once.
     * Either way the result screen follows.
     */
    method SubmitAnswer(optionIndex: int)
      requires Valid()
      modifies stateManager, engine`correctAnswerStreak, engine`totalPointsEarned, engine.prizeLadder`current
      modifies engine.player`currentLevel, engine.player`totalWinnings, engine.player`questionsAnswered
      modifies engine`gameActive, engine`gamesEnded, engine.profileManager`profiles
      modifies engine.leaderboard`entries, engine.leaderboard`savedText
      ensures Valid()
      ensures showLifelineMessage || old(stateManager.currentState) !in {QuestionDisplay, AnswerProcessing} ==>
        unchanged(stateManager, engine.Repr())
      ensures !showLifelineMessage && old(stateManager.currentState) in {QuestionDisplay, AnswerProcessing} ==>
        && stateManager.currentState == ResultDisplay
        && (stateManager.lastResult == Correct <==> engine.AnswerIsCorrect(optionIndex))
        && (stateManager.lastResult == Correct || stateManager.lastResult == Wrong)
        && engine.gamesEnded == old(engine.gamesEnded) + (if stateManager.lastResult == Correct then 0 else 1)
      ensures old(RoundConsistent()) ==> RoundConsistent()
    {
      if showLifelineMessage {
        return;
      }
      var state := stateManager.GetState();
      if state == AnswerProcessing || state == QuestionDisplay {
        Answer(optionIndex);
      }
    }

    /** The body of `submitAnswer` once its guards have passed. */
    method Answer(optionIndex: int)
      requires Valid()
      modifies stateManager, engine`correctAnswerStreak, engine`totalPointsEarned, engine.prizeLadder`current
      modifies engine.player`currentLevel, engine.player`totalWinnings, engine.player`questionsAnswered
      modifies engine`gameActive, engine`gamesEnded, engine.profileManager`profiles
      modifies engine.leaderboard`entries, engine.leaderboard`savedText
      ensures Valid()
      ensures stateManager.currentState == ResultDisplay
      ensures stateManager.lastResult == if engine.AnswerIsCorrect(optionIndex) then Correct else Wrong
      ensures engine.gamesEnded == old(engine.gamesEnded) + (if stateManager.lastResult == Correct then 0 else 1)
      ensures roundStart == old(roundStart)
    {
      var correct := engine.ProcessAnswer(optionIndex);
      if correct {
        stateManager.SetResult(Correct);
        stateManager.SetState(ResultDisplay);
      } else {
        LoseRound();
      }
    }

    /** The wrong-answer branch of `submitAnswer`: WRONG is recorded, the game ends and the result screen follows. */
    method LoseRound()
      requires Valid()
      modifies stateManager, engine`gameActive, engine`gamesEnded, engine.profileManager`profiles
      modifies engine.leaderboard`entries, engine.leaderboard`savedText
      ensures Valid()
      ensures stateManager.currentState == ResultDisplay && stateManager.lastResult == Wrong
      ensures engine.gamesEnded == old(engine.gamesEnded) + 1
      ensures engine.player.totalWinnings == old(engine.player.totalWinnings)
      ensures engine.prizeLadder.current == old(engine.prizeLadder.current)
      ensures old(engine.gamesEnded) == roundStart ==> RoundConsistent()
    {
      stateManager.SetResult(Wrong);
      engine.EndGame("");
      stateManager.SetState(ResultDisplay);
    }

    /** Every move into GAME_OVER made by the handlers below: end the game, then show GAME_OVER. */
    method EndRound()
      requires Valid()
      modifies stateManager`currentState, engine`gameActive, engine`gamesEnded, engine.profileManager`profiles
      modifies engine.leaderboard`entries, engine.leaderboard`savedText
      ensures Valid()
      ensures stateManager.currentState == GameOver && engine.gamesEnded == old(engine.gamesEnded) + 1
      ensures old(engine.gamesEnded) == roundStart ==> RoundConsistent()
    {
      engine.EndGame("");
      stateManager.SetState(GameOver);
    }

    /**
     * Continue after a pause screen: a correct result shows the ladder and
     * any other shows GAME_OVER; the ladder screen ends a won game at level
     * 15 and otherwise asks the next question; GAME_OVER leads to the final
     * score, and the final score and the leaderboard back to the menu.
     * Every other screen stays as it is.
     */
    method ClearPause()
      requires Valid()
      modifies stateManager`currentState, engine`gameActive, engine`gamesEnded, engine.profileManager`profiles
      modifies engine.leaderboard`entries, engine.leaderboard`savedText
      ensures Valid()
      ensures old(stateManager.currentState) == ResultDisplay ==>
        && stateManager.currentState == (if stateManager.lastResult == Correct then PrizeLadderScreen else GameOver)
        && engine.gamesEnded == old(engine.gamesEnded)
      ensures old(stateManager.currentState) == PrizeLadderScreen ==>
        && stateManager.currentState == (if engine.player.currentLevel >= 15 then GameOver else QuestionDisplay)
        && engine.gamesEnded == old(engine.gamesEnded) + (if engine.player.currentLevel >= 15 then 1 else 0)
      ensures old(stateManager.currentState) == GameOver ==> stateManager.currentState == FinalScore
      ensures old(stateManager.currentState) in {FinalScore, LeaderboardScreen} ==> stateManager.currentState == Menu
      ensures old(stateManager.currentState) != PrizeLadderScreen ==> engine.gamesEnded == old(engine.gamesEnded)
      ensures old(stateManager.currentState) !in {ResultDisplay, PrizeLadderScreen, GameOver, FinalScore, LeaderboardScreen} ==>
        stateManager.currentState == old(stateManager.currentState)
      ensures old(RoundConsistent()) ==> RoundConsistent()
    {
      var currentState := stateManager.GetState();
      if currentState == ResultDisplay {
        if stateManager.GetLastResult() == Correct {
          stateManager.SetState(PrizeLadderScreen);
        } else {
          stateManager.SetState(GameOver);
        }
      } else if currentState == PrizeLadderScreen {
        if engine.player.currentLevel >= 15 {
          EndRound();
        } else {
          stateManager.SetState(QuestionDisplay);
        }
      } else if currentState == GameOver {
        stateManager.SetState(FinalScore);
      } else if currentState == FinalScore || currentState == LeaderboardScreen {
        stateManager.SetState(Menu);
      }
    }

    /**
     * What drawing a question leaves behind, given the asked set and the
     * count of ended games before the draw: the first unasked question is
     * current; when there was none the game ended on GAME_OVER, otherwise the
     * question is marked asked, the timer holds the level's time limit and
     * the answer screen is shown.
     */
    ghost predicate QuestionDrawn(asked: map<int, bool>, ended: nat)
      reads this, engine, engine.questionBank, engine.player, stateManager
    {
      && engine.currentQuestion == GameEngines.QuestionBanks.FirstUnasked(engine.questionBank.questions, asked)
      && (engine.currentQuestion.id == -1 ==>
            stateManager.currentState == GameOver && engine.gamesEnded == ended + 1)
      && (engine.currentQuestion.id != -1 ==>
            && stateManager.currentState == AnswerProcessing && engine.gamesEnded == ended
            && engine.player.questionsAsked == asked[engine.currentQuestion.id := true]
            && timerDuration == GameLogics.GetTimeLimit(GameLogics.GetNextDifficulty(engine.player.currentLevel))
            && timerDuration == engine.timeLimit)
    }

    /**
     * Clears the hidden options and the message, then draws the next
     * question: when the bank has none left the game ends, otherwise the
     * timer gets the level's time limit and the answer screen follows.
     */
    method HandleQuestionDisplay()
      requires Valid()
      modifies this`hiddenOptions, this`showLifelineMessage, this`timerDuration
      modifies engine`currentQuestion, engine`timeLimit, engine`currentCategoryId, engine`served, engine.player`questionsAsked
      modifies stateManager`currentState, engine`gameActive, engine`gamesEnded, engine.profileManager`profiles
      modifies engine.leaderboard`entries, engine.leaderboard`savedText
      ensures Valid()
      ensures hiddenOptions == [] && !showLifelineMessage
      ensures QuestionDrawn(old(engine.player.questionsAsked), old(engine.gamesEnded))
      ensures old(engine.gamesEnded) == roundStart ==> RoundConsistent()
    {
      hiddenOptions := [];
      showLifelineMessage := false;
      DrawQuestion();
    }

    method DrawQuestion()
      requires Valid()
      modifies this`timerDuration
      modifies engine`currentQuestion, engine`timeLimit, engine`currentCategoryId, engine`served, engine.player`questionsAsked
      modifies stateManager`currentState, engine`gameActive, engine`gamesEnded, engine.profileManager`profiles
      modifies engine.leaderboard`entries, engine.leaderboard`savedText
      ensures Valid()
      ensures QuestionDrawn(old(engine.player.questionsAsked), old(engine.gamesEnded))
      ensures old(engine.gamesEnded) == roundStart ==> RoundConsistent()
    {
      var found := engine.GetNextQuestion();
      if !found {
        EndRound();
        return;
      }
      StartTimer();
    }

    /** A question is on screen: the timer gets the time limit of the level's difficulty and answers are taken. */
    method StartTimer()
      requires Valid()
      modifies this`timerDuration, stateManager`currentState
      ensures Valid()
      ensures stateManager.currentState == AnswerProcessing
      ensures timerDuration == GameLogics.GetTimeLimit(GameLogics.GetNextDifficulty(engine.player.currentLevel))
    {
      var difficulty := GameLogics.GetNextDifficulty(engine.player.currentLevel);
      timerDuration := GameLogics.GetTimeLimit(difficulty);
      stateManager.SetState(AnswerProcessing);
    }

    /** Nothing while a message is shown; when the timer has run out the answer counts as wrong and the game ends. */
    method HandleAnswerProcessing(timerFinished: bool)
      requires Valid()
      modifies stateManager`lastResult
      modifies stateManager`currentState, engine`gameActive, engine`gamesEnded, engine.profileManager`profiles
      modifies engine.leaderboard`entries, engine.leaderboard`savedText
      ensures Valid()
      ensures showLifelineMessage || !timerFinished ==> unchanged(stateManager, engine.Repr())
      ensures !showLifelineMessage && timerFinished ==>
        && stateManager.lastResult == Wrong && stateManager.currentState == GameOver
        && engine.gamesEnded == old(engine.gamesEnded) + 1
      ensures old(RoundConsistent()) && (old(stateManager.currentState) == AnswerProcessing || !timerFinished) ==> RoundConsistent()
    {
      if showLifelineMessage {
        return;
      }
      if timerFinished {
        stateManager.SetResult(Wrong);
        EndRound();
      }
    }

    /** One frame of the game loop: only the question and answer screens have work to do. */
    method Update(timerFinished: bool)
      requires Valid()
      modifies stateManager`lastResult
      modifies this`hiddenOptions, this`showLifelineMessage, this`timerDuration
      modifies engine`currentQuestion, engine`timeLimit, engine`currentCategoryId, engine`served, engine.player`questionsAsked
      modifies stateManager`currentState, engine`gameActive, engine`gamesEnded, engine.profileManager`profiles
      modifies engine.leaderboard`entries, engine.leaderboard`savedText
      ensures Valid()
      ensures old(stateManager.currentState) !in {QuestionDisplay, AnswerProcessing} ==>
        unchanged(this, stateManager, engine.Repr())
      ensures old(RoundConsistent()) ==> RoundConsistent()
    {
      var currentState := stateManager.GetState();
      if currentState == QuestionDisplay {
        HandleQuestionDisplay();
      } else if currentState == AnswerProcessing {
        HandleAnswerProcessing(timerFinished);
      }
    }


    /** 50-50 on screen: the two options the engine removes are hidden; a used lifeline hides nothing new. */
    method FiftyFifty(rand: nat -> nat)
      requires Valid()
      modifies this`hiddenOptions
      modifies engine.player.lifelinesUsed, engine.lifelineStack, engine.gameLogic.states
      ensures Valid()
      ensures !old(engine.gameLogic.IsLifelineAvailable(GameLogics.FIFTY_FIFTY)) ==> hiddenOptions == old(hiddenOptions)
      ensures old(engine.gameLogic.IsLifelineAvailable(GameLogics.FIFTY_FIFTY)) ==>
        && hiddenOptions == GameLogics.FiftyFiftyPick(engine.currentQuestion.correctAnswerIndex, rand)
        && |hiddenOptions| == 2
        && engine.lifelineStack.history == old(engine.lifelineStack.history) + [GameLogics.FIFTY_FIFTY]
        && !engine.gameLogic.IsLifelineAvailable(GameLogics.FIFTY_FIFTY)
    {
      var removed := engine.Use50_50Lifeline(rand);
      if removed != [] {
        hiddenOptions := removed;
      }
      if old(engine.gameLogic.IsLifelineAvailable(GameLogics.FIFTY_FIFTY)) {
        GameLogics.FiftyFiftyRemovesTwoWrong(engine.currentQuestion.correctAnswerIndex, rand);
      }
    }

    /**
     * Ask a Friend on screen: the friend's letter is shown. The engine's -1
     * for a used lifeline shows nothing, and so does a right guess when the
     * current question's own answer index is -1.
     */
    method AskFriend(rand: nat -> nat)
      requires Valid()
      requires engine.gameLogic.IsLifelineAvailable(GameLogics.ASK_FRIEND) && rand(0) % 100 >= 85 ==>
        exists k :: k >= 1 && rand(k) % 4 != engine.currentQuestion.correctAnswerIndex
      modifies this`lifelineMessage, this`showLifelineMessage
      modifies engine.player.lifelinesUsed, engine.lifelineStack, engine.gameLogic.states
      ensures Valid()
      ensures !old(engine.gameLogic.IsLifelineAvailable(GameLogics.ASK_FRIEND)) ==>
        lifelineMessage == old(lifelineMessage) && showLifelineMessage == old(showLifelineMessage)
      ensures old(engine.gameLogic.IsLifelineAvailable(GameLogics.ASK_FRIEND)) ==>
        && engine.lifelineStack.history == old(engine.lifelineStack.history) + [GameLogics.ASK_FRIEND]
        && !engine.gameLogic.IsLifelineAvailable(GameLogics.ASK_FRIEND)
      ensures old(engine.gameLogic.IsLifelineAvailable(GameLogics.ASK_FRIEND)) && rand(0) % 100 < 85 ==>
        if engine.currentQuestion.correctAnswerIndex == -1 then
          lifelineMessage == old(lifelineMessage) && showLifelineMessage == old(showLifelineMessage)
        else
          showLifelineMessage && lifelineMessage == MESSAGE_ASK_FRIEND + [OptionLetter(engine.currentQuestion.correctAnswerIndex)]
      ensures old(engine.gameLogic.IsLifelineAvailable(GameLogics.ASK_FRIEND)) && rand(0) % 100 >= 85 ==>
        && showLifelineMessage
        && exists i :: 0 <= i < 4 && i != engine.currentQuestion.correctAnswerIndex &&
             lifelineMessage == MESSAGE_ASK_FRIEND + [OptionLetter(i)]
    {
      var suggestion := engine.UseAskFriendLifeline(rand);
      if suggestion != -1 {
        var opt := OptionLetter(suggestion);
        lifelineMessage := MESSAGE_ASK_FRIEND + [opt];
        showLifelineMessage := true;
      }
    }

    /** Skip on screen: when the lifeline is still there the next question is drawn as on the question screen. */
    method Skip()
      requires Valid()
      modifies engine.player.lifelinesUsed, engine.lifelineStack, engine.gameLogic.states
      modifies this`hiddenOptions, this`showLifelineMessage, this`timerDuration
      modifies engine`currentQuestion, engine`timeLimit, engine`currentCategoryId, engine`served, engine.player`questionsAsked
      modifies stateManager`currentState, engine`gameActive, engine`gamesEnded, engine.profileManager`profiles
      modifies engine.leaderboard`entries, engine.leaderboard`savedText
      ensures Valid()
      ensures !old(engine.gameLogic.IsLifelineAvailable(GameLogics.SKIP)) ==>
        unchanged(this, stateManager) && unchanged(engine, engine.player, engine.profileManager, engine.leaderboard)
      ensures old(engine.gameLogic.IsLifelineAvailable(GameLogics.SKIP)) ==>
        && engine.lifelineStack.history == old(engine.lifelineStack.history) + [GameLogics.SKIP]
        && hiddenOptions == [] && !showLifelineMessage
        && QuestionDrawn(old(engine.player.questionsAsked), old(engine.gamesEnded))
      ensures old(RoundConsistent()) && (old(engine.gamesEnded) == roundStart || !old(engine.gameLogic.IsLifelineAvailable(GameLogics.SKIP))) ==>
        RoundConsistent()
    {
      var skipped := engine.UseSkipLifeline();
      if skipped {
        HandleQuestionDisplay();
      }
    }

    /** Hint on screen: a non-empty hint is shown behind "HINT: "; a used lifeline or an empty hint shows nothing. */
    method Hint()
      requires Valid()
      modifies this`lifelineMessage, this`showLifelineMessage
      modifies engine.player.lifelinesUsed, engine.lifelineStack, engine.gameLogic.states
      ensures Valid()
      ensures !old(engine.gameLogic.IsLifelineAvailable(GameLogics.HINT)) || engine.currentQuestion.hint == "" ==>
        lifelineMessage == old(lifelineMessage) && showLifelineMessage == old(showLifelineMessage)
      ensures old(engine.gameLogic.IsLifelineAvailable(GameLogics.HINT)) ==>
        && engine.lifelineStack.history == old(engine.lifelineStack.history) + [GameLogics.HINT]
        && !engine.gameLogic.IsLifelineAvailable(GameLogics.HINT)
      ensures old(engine.gameLogic.IsLifelineAvailable(GameLogics.HINT)) && engine.currentQuestion.hint != "" ==>
        showLifelineMessage && lifelineMessage == MESSAGE_HINT + engine.currentQuestion.hint
    {
      var hint := engine.UseHintLifeline();
      if hint != "" {
        lifelineMessage := MESSAGE_HINT + hint;
        showLifelineMessage := true;
      }
    }

    /**
     * A lifeline button: 0 is 50-50, 1 Ask a Friend, 2 Skip, 3 Hint; any
     * other number, or any press while a lifeline message is open, does
     * nothing. The screen the press comes from is not checked, so a skip
     * keeps the round count consistent only while the round is still running.
     */
    method HandleLifelineUsage(lifelineType: int, rand: nat -> nat)
      requires Valid()
      requires lifelineType == 1 && engine.gameLogic.IsLifelineAvailable(GameLogics.ASK_FRIEND) && rand(0) % 100 >= 85 ==>
        exists k :: k >= 1 && rand(k) % 4 != engine.currentQuestion.correctAnswerIndex
      modifies this`lifelineMessage
      modifies engine.player.lifelinesUsed, engine.lifelineStack, engine.gameLogic.states
      modifies this`hiddenOptions, this`showLifelineMessage, this`timerDuration
      modifies engine`currentQuestion, engine`timeLimit, engine`currentCategoryId, engine`served, engine.player`questionsAsked
      modifies stateManager`currentState, engine`gameActive, engine`gamesEnded, engine.profileManager`profiles
      modifies engine.leaderboard`entries, engine.leaderboard`savedText
      ensures Valid()
      ensures old(showLifelineMessage) || lifelineType !in {0, 1, 2, 3} ==>
        unchanged(this, stateManager) && unchanged(engine, engine.player, engine.profileManager, engine.leaderboard)
        && unchanged(engine.player.lifelinesUsed, engine.lifelineStack, engine.gameLogic.states)
      ensures !old(showLifelineMessage) && lifelineType == 0 && old(engine.gameLogic.IsLifelineAvailable(0)) ==>
        hiddenOptions == GameLogics.FiftyFiftyPick(engine.currentQuestion.correctAnswerIndex, rand)
      ensures !old(showLifelineMessage) && lifelineType == 1 && old(engine.gameLogic.IsLifelineAvailable(1)) ==>
        showLifelineMessage == (rand(0) % 100 >= 85 || engine.currentQuestion.correctAnswerIndex != -1)
      ensures !old(showLifelineMessage) && lifelineType == 2 && old(engine.gameLogic.IsLifelineAvailable(2)) ==>
        QuestionDrawn(old(engine.player.questionsAsked), old(engine.gamesEnded))
      ensures !old(showLifelineMessage) && lifelineType == 3 && old(engine.gameLogic.IsLifelineAvailable(3)) ==>
        showLifelineMessage == (engine.currentQuestion.hint != "")
      ensures !old(showLifelineMessage) && lifelineType in {0, 1, 2, 3} && old(engine.gameLogic.IsLifelineAvailable(lifelineType)) ==>
        engine.lifelineStack.history == old(engine.lifelineStack.history) + [lifelineType]
      ensures old(RoundConsistent()) && (lifelineType != 2 || old(engine.gamesEnded) == roundStart) ==> RoundConsistent()
    {
      if showLifelineMessage {
        return;
      }
      if lifelineType == 0 {
        FiftyFifty(rand);
      } else if lifelineType == 1 {
        AskFriend(rand);
      } else if lifelineType == 2 {
        Skip();
      } else if lifelineType == 3 {
        Hint();
      }
    }

    method CloseLifelineMessage()
      modifies this`showLifelineMessage
      ensures !showLifelineMessage
    {
      showLifelineMessage := false;
    }

    function GetHiddenOptions(): seq<int>
      reads this
    {
      hiddenOptions
    }

    function GetLifelineMessage(): string
      reads this
    {
      lifelineMessage
    }

    predicate IsLifelineMessageActive()
      reads this
    {
      showLifelineMessage
    }

    function GetState(): GameState
      reads stateManager
    {
      stateManager.currentState
    }

    predicate IsExiting()
      reads stateManager
    {
      stateManager.currentState == Exit
    }
  }
}
