/**
 * The game engine: one player's session over the prize ladder, the
 * lifeline logic, the question bank, the profile store and the leaderboard.
 *
 * Three builds: the GUI engine (src/game_engine.cpp), the header engine
 * (game_engine.h: three lifelines, no hint) and the root engine
 * (game_engine.cpp: four lifelines). Only the GUI engine puts the ladder
 * and the player's counters back to zero in `setupPlayer`; the legacy ones
 * let a second game continue from the rung where the first one stopped.
 */
module GameEngines {
  import opened Questions
  import opened Players
  import opened Wrappers
  import GameLogics
  import PrizeLadders
  import QuestionBanks
  import Leaderboards
  import LeaderboardSort
  import Profiles
  import Text
  import Shuffles

  datatype EngineKind = GuiEngine | HeaderEngine | RootEngine

  /** TOTAL_LIFELINES of the logic each engine uses, which is also the length of `player.lifelinesUsed`. */
  function Lifelines(kind: EngineKind): nat
  {
    if kind == HeaderEngine then 3 else 4
  }

  function BankOf(kind: EngineKind): QuestionBanks.BankKind
  {
    match kind
    case GuiEngine => QuestionBanks.GuiBank
    case HeaderEngine => QuestionBanks.HeaderBank
    case RootEngine => QuestionBanks.RootBank
  }

  function BoardOf(kind: EngineKind): Leaderboards.BoardKind
  {
    match kind
    case GuiEngine => Leaderboards.GuiBoard
    case HeaderEngine => Leaderboards.HeaderBoard
    case RootEngine => Leaderboards.RootBoard
  }

  /** The GUI and root engines both use the store of player_profile.cpp; the header engine the one of player_profile.h. */
  function StoreOf(kind: EngineKind): Profiles.StoreKind
  {
    if kind == HeaderEngine then Profiles.HeaderStore else Profiles.RootStore
  }

  /** The points a correct answer at `level` earns when it makes a streak of `streak`. */
  function AnswerPoints(level: int, streak: int): int
  {
    GameLogics.CalculatePoints(level, GameLogics.GetNextDifficulty(level)) + GameLogics.GetStreakBonus(streak)
  }

  /** Every correct answer on the ladder earns at least 100 points, and a longer streak never earns less. */
  lemma AnswerPointsBounds(level: int, streak: int)
    requires 0 <= level
    ensures AnswerPoints(level, streak) >= 100
    ensures AnswerPoints(level, streak) <= AnswerPoints(level, streak + 1)
  {
    GameLogics.PointsMonotone(0, level);
    GameLogics.StreakBonusSteps(streak);
  }

  /** The question the engine holds before the first draw (the C++ fields are left unset). */
  const NoQuestion: Question := Question(0, 0, "", [], 0, "")

  class GameEngine {
    const kind: EngineKind
    const player: Player
    const questionBank: QuestionBanks.QuestionBank
    const prizeLadder: PrizeLadders.PrizeLadder
    const lifelineStack: LifelineStack
    const leaderboard: Leaderboards.Leaderboard
    const gameLogic: GameLogics.GameLogic
    const profileManager: Profiles.ProfileManager
    var currentQuestion: Question
    var timeLimit: int
    /** Kept by the GUI engine only. */
    var currentCategoryId: int
    var gameActive: bool
    var correctAnswerStreak: int
    var totalPointsEarned: int
    /** The ids `getNextQuestion` has handed out, in order. */
    ghost var served: seq<int>
    /** How many times `endGame` has run. */
    ghost var gamesEnded: nat

    /**
     * The parts fit the build; the winnings always equal the prize of the
     * ladder's current rung; the ladder never stands above the player's
     * level (a wrong answer drops the ladder but not the level); and no id
     * has been served twice, each served id being in the asked set.
     */
    ghost predicate Valid()
      reads this, player, prizeLadder, gameLogic, gameLogic.states, profileManager
    {
      && prizeLadder.Valid() && gameLogic.Valid() && profileManager.Valid()
      && gameLogic.total == Lifelines(kind) && player.lifelinesUsed.Length == Lifelines(kind)
      && questionBank.kind == BankOf(kind) && leaderboard.kind == BoardOf(kind)
      && profileManager.kind == StoreOf(kind)
      && (kind == GuiEngine ==> prizeLadder.kind == PrizeLadders.GuiLadder)
      && (kind == HeaderEngine ==> prizeLadder.kind == PrizeLadders.ConsoleLadder)
      && player.totalWinnings == prizeLadder.CurrentPrize()
      && prizeLadder.CurrentLevel() <= player.currentLevel < 16
      && player.questionsAnswered >= 0 && correctAnswerStreak >= 0 && totalPointsEarned >= 0
      && (forall i :: 0 <= i < |served| ==> served[i] in player.questionsAsked)
      && (forall i, j :: 0 <= i < j < |served| ==> served[i] != served[j])
    }

    /** The objects a game in progress may change; the question bank only changes when loading. */
    ghost function Repr(): set<object>
    {
      {this, player, player.lifelinesUsed, prizeLadder, lifelineStack, leaderboard, gameLogic.states, profileManager}
    }

    /**
     * Builds the parts and loads the profile and leaderboard files (None:
     * the file cannot be opened). The root build's ladder table is not part
     * of this model, so its kind is a parameter.
     */
    constructor (kind: EngineKind, ladderKind: PrizeLadders.LadderKind,
                 profileFile: Option<string>, boardFile: Option<string>)
      requires kind == GuiEngine ==> ladderKind == PrizeLadders.GuiLadder
      requires kind == HeaderEngine ==> ladderKind == PrizeLadders.ConsoleLadder
      requires profileFile.Some? ==> Profiles.LinesOk(StoreOf(kind), Text.Tokens(profileFile.value, '\n'))
      requires boardFile.Some? ==> Leaderboards.BoardLinesOk(BoardOf(kind), Text.Tokens(boardFile.value, '\n'))
      ensures Valid() && this.kind == kind
      ensures timeLimit == 30 && !gameActive && correctAnswerStreak == 0 && totalPointsEarned == 0
      ensures currentCategoryId == -1 && currentQuestion == NoQuestion
      ensures prizeLadder.CurrentLevel() == 0 && player.totalWinnings == 0 && player.questionsAsked == map[]
      ensures questionBank.questions == [] && lifelineStack.history == [] && served == [] && gamesEnded == 0
      ensures forall t :: 0 <= t < Lifelines(kind) ==> gameLogic.IsLifelineAvailable(t)
    {
      this.kind := kind;
      player := new Player(Lifelines(kind));
      questionBank := new QuestionBanks.QuestionBank(BankOf(kind));
      prizeLadder := new PrizeLadders.PrizeLadder(ladderKind);
      lifelineStack := new LifelineStack();
      leaderboard := new Leaderboards.Leaderboard(BoardOf(kind), boardFile);
      gameLogic := new GameLogics.GameLogic(Lifelines(kind));
      profileManager := new Profiles.ProfileManager(StoreOf(kind), profileFile);
      currentQuestion := NoQuestion;
      timeLimit, currentCategoryId, gameActive := 30, -1, false;
      correctAnswerStreak, totalPointsEarned := 0, 0;
      served, gamesEnded := [], 0;
      new;
      PrizeLadders.TableShape(ladderKind);
    }

    /** `initialize`: loads the question file; false only when it cannot be opened. */
    method Initialize(file: Option<string>, optRand: nat -> nat -> nat, qRand: nat -> nat) returns (ok: bool)
      requires Valid()
      requires file.Some? ==> QuestionBanks.FileOk(file.value)
      modifies questionBank, questionBank.categoryNetwork
      ensures Valid()
      ensures ok <==> file.Some?
      ensures ok ==> multiset(questionBank.questions)
                     == multiset(old(questionBank.questions) + QuestionBanks.Parsed(BankOf(kind), Text.Tokens(file.value, '\n'), optRand))
      ensures !ok ==> questionBank.questions == old(questionBank.questions)
    {
      ghost var before := questionBank.questions;
      ok := questionBank.LoadFromFile(file, optRand, qRand);
      if ok {
        Shuffles.FisherYatesPermutes(before + QuestionBanks.Parsed(BankOf(kind), Text.Tokens(file.value, '\n'), optRand), qRand);
      }
    }

    /**
     * Names the player, makes sure a profile exists and starts a new game:
     * lifelines, streak and points back to zero, and in the GUI build the
     * ladder, winnings, level and answered count too. The asked set and
     * `lifelinesUsed` are kept.
     */
    method SetupPlayer(name: string, gender: string)
      requires Valid()
      modifies player`name, player`gender, player`totalWinnings, player`currentLevel, player`questionsAnswered
      modifies profileManager`profiles, gameLogic.states, prizeLadder`current
      modifies this`correctAnswerStreak, this`totalPointsEarned
      ensures Valid()
      ensures player.name == name && player.gender == gender
      ensures name in profileManager.profiles
      ensures name in old(profileManager.profiles) ==> profileManager.profiles == old(profileManager.profiles)
      ensures name !in old(profileManager.profiles) ==>
        profileManager.profiles == old(profileManager.profiles)[name := Profiles.NewStats(name, gender)]
      ensures forall t :: 0 <= t < Lifelines(kind) ==> gameLogic.IsLifelineAvailable(t)
      ensures correctAnswerStreak == 0 && totalPointsEarned == 0
      ensures kind == GuiEngine ==>
        prizeLadder.CurrentLevel() == 0 && player.totalWinnings == 0
        && player.currentLevel == 0 && player.questionsAnswered == 0
      ensures kind != GuiEngine ==>
        prizeLadder.current == old(prizeLadder.current) && player.totalWinnings == old(player.totalWinnings)
        && player.currentLevel == old(player.currentLevel) && player.questionsAnswered == old(player.questionsAnswered)
      ensures player.questionsAsked == old(player.questionsAsked)
    {
      NamePlayer(name, gender);
      gameLogic.ResetLifelines();
      correctAnswerStreak := 0;
      totalPointsEarned := 0;
      if kind == GuiEngine {
        ResetRun();
      }
    }

    /** The first step of `setupPlayer`: name the player and make sure the store has a profile for the name. */
    method NamePlayer(name: string, gender: string)
      requires Valid()
      modifies player`name, player`gender, profileManager`profiles
      ensures Valid()
      ensures player.name == name && player.gender == gender
      ensures name in old(profileManager.profiles) ==> profileManager.profiles == old(profileManager.profiles)
      ensures name !in old(profileManager.profiles) ==>
        profileManager.profiles == old(profileManager.profiles)[name := Profiles.NewStats(name, gender)]
    {
      player.name := name;
      player.gender := gender;
      var _ := profileManager.GetOrCreateProfile(name, gender);
    }

    /** The GUI engine's extra reset: ladder to the head, winnings, level and answered count to zero. */
    method ResetRun()
      requires Valid()
      modifies prizeLadder`current, player`totalWinnings, player`currentLevel, player`questionsAnswered
      ensures Valid()
      ensures prizeLadder.CurrentLevel() == 0 && player.totalWinnings == 0
      ensures player.currentLevel == 0 && player.questionsAnswered == 0
    {
      prizeLadder.ResetLadder();
      player.totalWinnings := 0;
      player.currentLevel := 0;
      player.questionsAnswered := 0;
    }

    /**
     * Draws the first question the player has not been asked. On the id -1
     * sentinel it reports false and records nothing; otherwise the id joins
     * the asked set and the time limit follows the player's level.
     */
    method GetNextQuestion() returns (found: bool)
      requires Valid()
      modifies this`currentQuestion, this`timeLimit, this`currentCategoryId, this`served, player`questionsAsked
      ensures Valid()
      ensures currentQuestion == QuestionBanks.FirstUnasked(questionBank.questions, old(player.questionsAsked))
      ensures found <==> currentQuestion.id != -1
      ensures found ==>
        && currentQuestion in questionBank.questions
        && currentQuestion.id !in old(player.questionsAsked)
        && player.questionsAsked == old(player.questionsAsked)[currentQuestion.id := true]
        && served == old(served) + [currentQuestion.id]
        && timeLimit == GameLogics.GetTimeLimit(GameLogics.GetNextDifficulty(player.currentLevel))
        && (kind == GuiEngine ==> currentCategoryId == currentQuestion.category)
      ensures !found ==>
        player.questionsAsked == old(player.questionsAsked) && served == old(served) && timeLimit == old(timeLimit)
      ensures kind != GuiEngine || !found ==> currentCategoryId == old(currentCategoryId)
    {
      currentQuestion := questionBank.GetNextQuestion(player.questionsAsked);
      if currentQuestion.id == -1 {
        return false;
      }
      assert currentQuestion != NoMoreQuestions;
      player.RecordQuestion(currentQuestion.id);
      served := served + [currentQuestion.id];
      if kind == GuiEngine {
        currentCategoryId := currentQuestion.category;
      }
      var difficulty := GameLogics.GetNextDifficulty(player.currentLevel);
      timeLimit := GameLogics.GetTimeLimit(difficulty);
      return true;
    }

    /**
     * A correct answer extends the streak, adds the points, climbs one rung
     * and copies level and prize to the player; a wrong one ends the streak
     * and, off a safety rung, drops the ladder to safety. Either way the
     * winnings become the ladder's prize.
     */
    method ProcessAnswer(optionIndex: int) returns (correct: bool)
      requires Valid()
      modifies this`correctAnswerStreak, this`totalPointsEarned, prizeLadder`current
      modifies player`currentLevel, player`totalWinnings, player`questionsAnswered
      ensures Valid()
      ensures correct <==> AnswerIsCorrect(optionIndex)
      ensures player.totalWinnings == prizeLadder.CurrentPrize()
      ensures correct ==>
        && correctAnswerStreak == old(correctAnswerStreak) + 1
        && totalPointsEarned == old(totalPointsEarned) + AnswerPoints(old(player.currentLevel), correctAnswerStreak)
        && prizeLadder.current == (if old(prizeLadder.current) < 15 then old(prizeLadder.current) + 1 else 15)
        && player.currentLevel == prizeLadder.CurrentLevel()
        && player.questionsAnswered == old(player.questionsAnswered) + 1
      ensures !correct ==>
        && correctAnswerStreak == 0 && totalPointsEarned == old(totalPointsEarned)
        && (old(prizeLadder.IsSafetyLevel()) || old(prizeLadder.current) == 0 ==> prizeLadder.current == old(prizeLadder.current))
        && (!old(prizeLadder.IsSafetyLevel()) && old(prizeLadder.current) > 0 ==>
              prizeLadder.current == PrizeLadders.SafetyTarget(prizeLadder.kind, prizeLadder.rungs, old(prizeLadder.current)))
        && player.currentLevel == old(player.currentLevel)
        && player.questionsAnswered == old(player.questionsAnswered)
    {
      correct := questionBank.IsCorrectAnswer(currentQuestion.id, optionIndex);
      if correct {
        AnswerRight();
      } else {
        AnswerWrong();
      }
    }

    /** The correct-answer branch of `processAnswer`. */
    method AnswerRight()
      requires Valid()
      modifies this`correctAnswerStreak, this`totalPointsEarned, prizeLadder`current
      modifies player`currentLevel, player`totalWinnings, player`questionsAnswered
      ensures Valid()
      ensures correctAnswerStreak == old(correctAnswerStreak) + 1
      ensures totalPointsEarned == old(totalPointsEarned) + AnswerPoints(old(player.currentLevel), correctAnswerStreak)
      ensures prizeLadder.current == (if old(prizeLadder.current) < 15 then old(prizeLadder.current) + 1 else 15)
      ensures player.currentLevel == prizeLadder.CurrentLevel() && player.totalWinnings == prizeLadder.CurrentPrize()
      ensures player.questionsAnswered == old(player.questionsAnswered) + 1
    {
      correctAnswerStreak := correctAnswerStreak + 1;
      var points := GameLogics.CalculatePoints(player.currentLevel, GameLogics.GetNextDifficulty(player.currentLevel));
      points := points + GameLogics.GetStreakBonus(correctAnswerStreak);
      AnswerPointsBounds(player.currentLevel, correctAnswerStreak);
      totalPointsEarned := totalPointsEarned + points;
      prizeLadder.MoveForward();
      player.currentLevel := prizeLadder.CurrentLevel();
      player.totalWinnings := prizeLadder.CurrentPrize();
      player.questionsAnswered := player.questionsAnswered + 1;
    }

    /** The wrong-answer branch of `processAnswer`. */
    method AnswerWrong()
      requires Valid()
      modifies this`correctAnswerStreak, prizeLadder`current, player`totalWinnings
      ensures Valid()
      ensures correctAnswerStreak == 0
      ensures old(prizeLadder.IsSafetyLevel()) || old(prizeLadder.current) == 0 ==> prizeLadder.current == old(prizeLadder.current)
      ensures !old(prizeLadder.IsSafetyLevel()) && old(prizeLadder.current) > 0 ==>
        prizeLadder.current == PrizeLadders.SafetyTarget(prizeLadder.kind, prizeLadder.rungs, old(prizeLadder.current))
      ensures player.totalWinnings == prizeLadder.CurrentPrize()
    {
      correctAnswerStreak := 0;
      if !prizeLadder.IsSafetyLevel() {
        prizeLadder.MoveToSafetyLevel();
      }
      player.totalWinnings := prizeLadder.CurrentPrize();
    }

    /** The bank knows the current question's id and its first question with that id has `optionIndex` as the correct index. */
    predicate AnswerIsCorrect(optionIndex: int)
      reads this, questionBank
    {
      && QuestionBanks.FindById(questionBank.questions, currentQuestion.id).Some?
      && QuestionBanks.FindById(questionBank.questions, currentQuestion.id).value.correctAnswerIndex == optionIndex
    }

    /** The bookkeeping every successful lifeline wrapper does before applying: mark the slot and push it on the history. */
    method MarkLifeline(t: int)
      requires 0 <= t < player.lifelinesUsed.Length
      modifies player.lifelinesUsed, lifelineStack
      ensures player.lifelinesUsed[t] == 1
      ensures forall u :: 0 <= u < player.lifelinesUsed.Length && u != t ==> player.lifelinesUsed[u] == old(player.lifelinesUsed[u])
      ensures lifelineStack.history == old(lifelineStack.history) + [t]
    {
      player.lifelinesUsed[t] := 1;
      lifelineStack.UsedLifeline(t);
    }

    /** 50-50: the empty list when already used; otherwise the two wrong options it removes. */
    method Use50_50Lifeline(rand: nat -> nat) returns (removed: seq<int>)
      requires Valid()
      modifies player.lifelinesUsed, lifelineStack, gameLogic.states
      ensures Valid()
      ensures !old(gameLogic.IsLifelineAvailable(GameLogics.FIFTY_FIFTY)) ==>
        removed == [] && unchanged(player.lifelinesUsed, lifelineStack, gameLogic.states)
      ensures old(gameLogic.IsLifelineAvailable(GameLogics.FIFTY_FIFTY)) ==>
        && removed == GameLogics.FiftyFiftyPick(currentQuestion.correctAnswerIndex, rand)
        && player.lifelinesUsed[GameLogics.FIFTY_FIFTY] == 1
        && lifelineStack.history == old(lifelineStack.history) + [GameLogics.FIFTY_FIFTY]
        && !gameLogic.IsLifelineAvailable(GameLogics.FIFTY_FIFTY)
        && forall u :: 0 <= u < Lifelines(kind) && u != GameLogics.FIFTY_FIFTY ==>
             player.lifelinesUsed[u] == old(player.lifelinesUsed[u]) && gameLogic.states[u] == old(gameLogic.states[u])
    {
      if !gameLogic.IsLifelineAvailable(GameLogics.FIFTY_FIFTY) {
        return [];
      }
      MarkLifeline(GameLogics.FIFTY_FIFTY);
      removed := gameLogic.Apply50_50Lifeline(currentQuestion, rand);
    }

    /** Ask a Friend: -1 when already used; otherwise the friend's pick, right on a roll below 85. */
    method UseAskFriendLifeline(rand: nat -> nat) returns (suggestion: int)
      requires Valid()
      requires gameLogic.IsLifelineAvailable(GameLogics.ASK_FRIEND) && rand(0) % 100 >= 85 ==>
        exists k :: k >= 1 && rand(k) % 4 != currentQuestion.correctAnswerIndex
      modifies player.lifelinesUsed, lifelineStack, gameLogic.states
      ensures Valid()
      ensures !old(gameLogic.IsLifelineAvailable(GameLogics.ASK_FRIEND)) ==>
        suggestion == -1 && unchanged(player.lifelinesUsed, lifelineStack, gameLogic.states)
      ensures old(gameLogic.IsLifelineAvailable(GameLogics.ASK_FRIEND)) ==>
        && (rand(0) % 100 < 85 ==> suggestion == currentQuestion.correctAnswerIndex)
        && (rand(0) % 100 >= 85 ==> suggestion != currentQuestion.correctAnswerIndex && 0 <= suggestion < 4)
        && player.lifelinesUsed[GameLogics.ASK_FRIEND] == 1
        && lifelineStack.history == old(lifelineStack.history) + [GameLogics.ASK_FRIEND]
        && !gameLogic.IsLifelineAvailable(GameLogics.ASK_FRIEND)
        && forall u :: 0 <= u < Lifelines(kind) && u != GameLogics.ASK_FRIEND ==>
             player.lifelinesUsed[u] == old(player.lifelinesUsed[u]) && gameLogic.states[u] == old(gameLogic.states[u])
    {
      if !gameLogic.IsLifelineAvailable(GameLogics.ASK_FRIEND) {
        return -1;
      }
      MarkLifeline(GameLogics.ASK_FRIEND);
      suggestion := gameLogic.ApplyAskFriendLifeline(currentQuestion, rand);
    }

    /** Skip: false when already used, true the first time. */
    method UseSkipLifeline() returns (skipped: bool)
      requires Valid()
      modifies player.lifelinesUsed, lifelineStack, gameLogic.states
      ensures Valid()
      ensures skipped == old(gameLogic.IsLifelineAvailable(GameLogics.SKIP))
      ensures !skipped ==> unchanged(player.lifelinesUsed, lifelineStack, gameLogic.states)
      ensures skipped ==>
        && player.lifelinesUsed[GameLogics.SKIP] == 1
        && lifelineStack.history == old(lifelineStack.history) + [GameLogics.SKIP]
        && !gameLogic.IsLifelineAvailable(GameLogics.SKIP)
        && forall u :: 0 <= u < Lifelines(kind) && u != GameLogics.SKIP ==>
             player.lifelinesUsed[u] == old(player.lifelinesUsed[u]) && gameLogic.states[u] == old(gameLogic.states[u])
    {
      if !gameLogic.IsLifelineAvailable(GameLogics.SKIP) {
        return false;
      }
      MarkLifeline(GameLogics.SKIP);
      skipped := gameLogic.ApplySkipLifeline();
    }

    /** Hint (GUI and root engines only): "" when already used, else the question's hint. */
    method UseHintLifeline() returns (hint: string)
      requires Valid() && kind != HeaderEngine
      modifies player.lifelinesUsed, lifelineStack, gameLogic.states
      ensures Valid()
      ensures !old(gameLogic.IsLifelineAvailable(GameLogics.HINT)) ==>
        hint == "" && unchanged(player.lifelinesUsed, lifelineStack, gameLogic.states)
      ensures old(gameLogic.IsLifelineAvailable(GameLogics.HINT)) ==>
        && hint == currentQuestion.hint
        && player.lifelinesUsed[GameLogics.HINT] == 1
        && lifelineStack.history == old(lifelineStack.history) + [GameLogics.HINT]
        && !gameLogic.IsLifelineAvailable(GameLogics.HINT)
        && forall u :: 0 <= u < Lifelines(kind) && u != GameLogics.HINT ==>
             player.lifelinesUsed[u] == old(player.lifelinesUsed[u]) && gameLogic.states[u] == old(gameLogic.states[u])
    {
      if !gameLogic.IsLifelineAvailable(GameLogics.HINT) {
        return "";
      }
      MarkLifeline(GameLogics.HINT);
      hint := gameLogic.ApplyHintLifeline(currentQuestion);
    }

    predicate IsLifelineAvailable(t: int)
      reads this, player, prizeLadder, gameLogic, gameLogic.states, profileManager
      requires Valid()
      ensures IsLifelineAvailable(t) ==> 0 <= t < Lifelines(kind)
    {
      gameLogic.IsLifelineAvailable(t)
    }

    /**
     * Ends the game: the result goes into the player's profile (when one
     * exists) and one entry joins the leaderboard. `timestamp` is the
     * `ctime` text the legacy engines pass; the GUI engine passes "".
     */
    method EndGame(timestamp: string)
      requires Valid()
      modifies this`gameActive, this`gamesEnded, profileManager`profiles
      modifies leaderboard`entries, leaderboard`savedText
      ensures Valid()
      ensures !gameActive && gamesEnded == old(gamesEnded) + 1
      ensures profileManager.profiles == Profiles.AfterGame(StoreOf(kind), old(profileManager.profiles),
                                                            player.name, player.totalWinnings, player.currentLevel,
                                                            player.questionsAnswered)
      ensures leaderboard.entries == Leaderboards.AddedTo(old(leaderboard.entries),
        LeaderboardSort.Entry(player.name, player.totalWinnings, player.currentLevel,
                              if kind == GuiEngine then "" else timestamp, player.questionsAnswered))
    {
      gameActive := false;
      profileManager.UpdatePlayerStats(player.name, player.totalWinnings, player.currentLevel, player.questionsAnswered);
      leaderboard.AddEntry(player, if kind == GuiEngine then "" else timestamp);
      gamesEnded := gamesEnded + 1;
    }

    /** The stored profile of the current player, or a fresh zeroed one when the store has none; reads only. */
    function GetPlayerProfile(): (stats: Profiles.PlayerStats)
      reads this, player, profileManager
      ensures stats.playerName == player.name || player.name in profileManager.profiles
      ensures player.name in profileManager.profiles ==> stats == profileManager.profiles[player.name]
      ensures player.name !in profileManager.profiles ==> stats.gamesPlayed == 0 && stats.totalWinnings == 0 && stats.maxLevel == 0
    {
      if player.name in profileManager.profiles then profileManager.profiles[player.name]
      else Profiles.NewStats(player.name, player.gender)
    }
  }
}
