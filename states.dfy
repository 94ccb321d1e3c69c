/**
 * The three state managers of the game: the GUI one (src/game_state.cpp),
 * the console one of the root build (game_state.cpp) and the header one
 * (game_state.h), which also remembers the previous state and whether the
 * state changed since it was last acknowledged.
 */
module GuiStates {
  /** The twelve screens of the GUI build. */
  datatype GameState =
    | Splash | Menu | PlayerSetup | GameIntro | QuestionDisplay | AnswerProcessing
    | ResultDisplay | PrizeLadderScreen | GameOver | FinalScore | LeaderboardScreen | Exit

  datatype GameResult = NoResult | Correct | Wrong | Quit

  class GameStateManager {
    var currentState: GameState
    var lastResult: GameResult

    constructor ()
      ensures currentState == Splash && lastResult == NoResult
    {
      currentState, lastResult := Splash, NoResult;
    }

    method SetState(state: GameState)
      modifies this`currentState
      ensures currentState == state
    {
      currentState := state;
    }

    function GetState(): GameState
      reads this
    {
      currentState
    }

    method SetResult(result: GameResult)
      modifies this`lastResult
      ensures lastResult == result
    {
      lastResult := result;
    }

    function GetLastResult(): GameResult
      reads this
    {
      lastResult
    }
  }
}

module ConsoleStates {
  datatype GameState = Menu | PlayerSetup | QuestionDisplay | AnswerProcessing | ResultDisplay | GameOver | Leaderboard | Exit

  datatype GameResult = Correct | Wrong | Quit

  class GameStateManager {
    var currentState: GameState
    var lastResult: GameResult

    constructor ()
      ensures currentState == Menu && lastResult == Correct
    {
      currentState, lastResult := Menu, Correct;
    }

    method SetState(state: GameState)
      modifies this`currentState
      ensures currentState == state
    {
      currentState := state;
    }

    function GetState(): GameState
      reads this
    {
      currentState
    }

    method SetResult(result: GameResult)
      modifies this`lastResult
      ensures lastResult == result
    {
      lastResult := result;
    }

    function GetLastResult(): GameResult
      reads this
    {
      lastResult
    }
  }
}

module HeaderStates {
  datatype GameState =
    | Menu | PlayerSetup | QuestionDisplay | LifelineSelection | AnswerProcessing
    | ResultDisplay | GameOver | Leaderboard | Exit

  datatype GameResult = Correct | Wrong | Timeout | Quit

  /** The name `getStateString` prints for a state. */
  function StateString(s: GameState): string
  {
    match s
    case Menu => "MAIN_MENU"
    case PlayerSetup => "PLAYER_SETUP"
    case QuestionDisplay => "QUESTION_DISPLAY"
    case LifelineSelection => "LIFELINE_SELECTION"
    case AnswerProcessing => "ANSWER_PROCESSING"
    case ResultDisplay => "RESULT_DISPLAY"
    case GameOver => "GAME_OVER"
    case Leaderboard => "LEADERBOARD"
    case Exit => "EXIT"
  }

  /** Every state has its own name, and none is the "UNKNOWN" fallback, which no state reaches. */
  lemma StateStringNamesEachState(s: GameState, t: GameState)
    ensures StateString(s) == StateString(t) <==> s == t
    ensures StateString(s) != "UNKNOWN"
  {
  }

  class GameStateManager {
    var currentState: GameState
    var previousState: GameState
    var lastResult: GameResult
    var stateChanged: bool

    /** Apart from the initial Menu/Menu pair, the previous state differs from the current one. */
    ghost predicate Valid()
      reads this
    {
      currentState != previousState || currentState == Menu
    }

    constructor ()
      ensures Valid()
      ensures currentState == Menu && previousState == Menu && lastResult == Quit && stateChanged
    {
      currentState, previousState, lastResult, stateChanged := Menu, Menu, Quit, true;
    }

    /** A move to a different state records where it came from and flags the change; setting the current state again does nothing. */
    method SetState(newState: GameState)
      requires Valid()
      modifies this`currentState, this`previousState, this`stateChanged
      ensures Valid()
      ensures currentState == newState
      ensures newState != old(currentState) ==> previousState == old(currentState) && stateChanged
      ensures newState == old(currentState) ==> previousState == old(previousState) && stateChanged == old(stateChanged)
    {
      if newState != currentState {
        previousState := currentState;
        currentState := newState;
        stateChanged := true;
      }
    }

    function GetState(): GameState
      reads this
    {
      currentState
    }

    function GetPreviousState(): GameState
      reads this
    {
      previousState
    }

    function HasStateChanged(): bool
      reads this
    {
      stateChanged
    }

    method AcknowledgeStateChange()
      modifies this`stateChanged
      ensures !stateChanged
    {
      stateChanged := false;
    }

    method SetResult(result: GameResult)
      modifies this`lastResult
      ensures lastResult == result
    {
      lastResult := result;
    }

    function GetLastResult(): GameResult
      reads this
    {
      lastResult
    }

    function GetStateString(): string
      reads this
    {
      StateString(currentState)
    }
  }
}
