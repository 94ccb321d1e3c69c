/**
 * `GameLogic`: the one-shot lifelines and the scoring rules.
 *
 * The GUI build has four lifelines (0 = 50-50, 1 = Ask Friend, 2 = Skip,
 * 3 = Hint); the header build has the first three. `rand()` becomes an
 * oracle. For the 50-50 shuffle, `rand(i)` is the value drawn at the
 * Fisher-Yates step for index i, counting down from the last index as in
 * `Shuffles`; for Ask a Friend, `rand(0)` is the accuracy roll and `rand(k)`,
 * k >= 1, the k-th draw of the wrong-answer retry loop.
 */
module GameLogics {
  import opened Questions
  import Shuffles

  const FIFTY_FIFTY := 0
  const ASK_FRIEND := 1
  const SKIP := 2
  const HINT := 3

  datatype LifelineState = LifelineState(used: bool, usageCount: int)

  /** The candidates 50-50 may remove: the indices 0..k-1 other than the correct one, in increasing order. */
  function WrongBelow(correct: int, k: nat): (w: seq<int>)
    requires k <= 4
    ensures forall i :: 0 <= i < |w| ==> 0 <= w[i] < k && w[i] != correct
    ensures forall i, j :: 0 <= i < j < |w| ==> w[i] < w[j]
    ensures |w| == if 0 <= correct < k then k - 1 else k
  {
    if k == 0 then [] else WrongBelow(correct, k - 1) + (if k - 1 != correct then [k - 1] else [])
  }

  /** The two indices 50-50 removes: the first two wrong indices after the shuffle. */
  function FiftyFiftyPick(correct: int, rand: nat -> nat): seq<int>
  {
    var w := Shuffles.FisherYates(WrongBelow(correct, 4), rand);
    if |w| >= 2 then [w[0], w[1]] else []
  }

  /** Whatever the draws, 50-50 removes exactly two different wrong options. */
  lemma FiftyFiftyRemovesTwoWrong(correct: int, rand: nat -> nat)
    ensures |FiftyFiftyPick(correct, rand)| == 2
    ensures FiftyFiftyPick(correct, rand)[0] != FiftyFiftyPick(correct, rand)[1]
    ensures forall k :: 0 <= k < 2 ==>
      0 <= FiftyFiftyPick(correct, rand)[k] < 4 && FiftyFiftyPick(correct, rand)[k] != correct
  {
    var w := WrongBelow(correct, 4);
    Shuffles.FisherYatesPermutes(w, rand);
    var v := Shuffles.FisherYates(w, rand);
    WrongIndicesPermuted(correct, w, v);
  }

  lemma WrongIndicesPermuted(correct: int, w: seq<int>, v: seq<int>)
    requires w == WrongBelow(correct, 4)
    requires |v| == |w| && multiset(v) == multiset(w)
    requires Shuffles.Distinct(w) ==> Shuffles.Distinct(v)
    ensures |v| >= 3 && v[0] != v[1]
    ensures forall k :: 0 <= k < 2 ==> 0 <= v[k] < 4 && v[k] != correct
  {
    assert Shuffles.Distinct(w);
    forall k | 0 <= k < 2 ensures 0 <= v[k] < 4 && v[k] != correct {
      assert v[k] in multiset(v);
      assert v[k] in multiset(w);
      var i :| 0 <= i < |w| && w[i] == v[k];
    }
  }

  // ---------------------------------------------------------------------
  // Scoring rules.

  /** C++ `a / b` for a positive divisor: the quotient rounded toward zero. */
  function CDiv(a: int, b: int): (q: int)
    requires b > 0
    ensures a >= 0 ==> q == a / b
    ensures a <= 0 ==> q <= 0
  {
    if a >= 0 then a / b else -((-a) / b)
  }

  function CalculatePoints(level: int, difficulty: int): int
  {
    100 * (level + 1) * (CDiv(difficulty, 2) + 1)
  }

  /** Difficulty 1 pays 100 per rung, difficulties 2 and 3 both pay 200 per rung. */
  lemma PointsByTier(level: int)
    ensures CalculatePoints(level, 1) == 100 * (level + 1)
    ensures CalculatePoints(level, 2) == 200 * (level + 1)
    ensures CalculatePoints(level, 3) == CalculatePoints(level, 2)
  {
  }

  /** For every level of the ladder, points grow with the level and with the tier a level is given. */
  lemma PointsMonotone(l1: int, l2: int)
    requires 0 <= l1 <= l2
    ensures CalculatePoints(l1, GetNextDifficulty(l1)) <= CalculatePoints(l2, GetNextDifficulty(l2))
    ensures CalculatePoints(l1, GetNextDifficulty(l1)) >= 100
  {
    var d1, d2 := GetNextDifficulty(l1), GetNextDifficulty(l2);
    assert CDiv(d1, 2) + 1 <= CDiv(d2, 2) + 1;
    assert 100 * (l1 + 1) <= 100 * (l2 + 1);
    MulMonotone(100 * (l1 + 1), CDiv(d1, 2) + 1, 100 * (l2 + 1), CDiv(d2, 2) + 1);
  }

  lemma MulMonotone(a: int, b: int, c: int, d: int)
    requires 0 <= a <= c && 0 <= b <= d
    ensures a * b <= c * d
  {
    assert a * b <= c * b;
    assert c * b <= c * d;
  }

  function GetStreakBonus(correctAnswers: int): (b: int)
    ensures b >= 0
  {
    if correctAnswers < 3 then 0 else (correctAnswers - 2) * 50
  }

  /** No bonus for the first two answers in a row, then 50 more for each further one. */
  lemma StreakBonusSteps(n: int)
    ensures GetStreakBonus(n) <= GetStreakBonus(n + 1)
    ensures n >= 2 ==> GetStreakBonus(n + 1) == GetStreakBonus(n) + 50
    ensures n <= 2 ==> GetStreakBonus(n) == 0
  {
  }

  function GetNextDifficulty(currentLevel: int): (d: int)
    ensures 1 <= d <= 3
    ensures d == 1 <==> currentLevel < 5
    ensures d == 3 <==> currentLevel >= 10
  {
    if currentLevel < 5 then 1 else if currentLevel < 10 then 2 else 3
  }

  function GetTimeLimit(difficulty: int): (t: int)
    ensures t == 30 <==> !(1 <= difficulty <= 3)
    ensures 1 <= difficulty <= 3 ==> t == 55 - 10 * difficulty
  {
    match difficulty
    case 1 => 45
    case 2 => 35
    case 3 => 25
    case _ => 30
  }

  /** The seconds granted for a question never grow as the player climbs; they are always 45, 35 or 25. */
  lemma TimeLimitNonIncreasing(l1: int, l2: int)
    requires l1 <= l2
    ensures GetTimeLimit(GetNextDifficulty(l1)) >= GetTimeLimit(GetNextDifficulty(l2))
    ensures GetTimeLimit(GetNextDifficulty(l2)) in {45, 35, 25}
  {
  }

  predicate ValidateAnswer(question: Question, selectedIndex: int)
  {
    selectedIndex == question.correctAnswerIndex
  }

  // ---------------------------------------------------------------------
  // The lifeline flags.

  /** Number of used flags among the first k slots. */
  function UsedCount(s: seq<LifelineState>, k: nat): (n: nat)
    requires k <= |s|
    ensures n <= k
  {
    if k == 0 then 0 else UsedCount(s, k - 1) + (if s[k - 1].used then 1 else 0)
  }

  class GameLogic {
    /** TOTAL_LIFELINES */
    const total: nat
    const states: array<LifelineState>

    /** Between resets a lifeline has been applied once exactly when it is marked used. */
    ghost predicate Valid()
      reads this, states
    {
      (total == 3 || total == 4) && states.Length == total
      && forall t :: 0 <= t < total ==> states[t].usageCount == (if states[t].used then 1 else 0)
    }

    constructor (total: nat)
      requires total == 3 || total == 4
      ensures Valid() && this.total == total && fresh(states)
      ensures forall t :: 0 <= t < total ==> states[t] == LifelineState(false, 0)
    {
      this.total := total;
      states := new LifelineState[total](_ => LifelineState(false, 0));
    }

    predicate IsLifelineAvailable(t: int)
      reads this, states
      requires Valid()
      ensures IsLifelineAvailable(t) ==> 0 <= t < total
      ensures 0 <= t < total ==> (IsLifelineAvailable(t) <==> states[t].usageCount == 0)
    {
      if t < 0 || t >= total then false else !states[t].used
    }

    /** Marks slot t used (the shared tail of every successful apply). */
    method MarkUsed(t: nat)
      requires Valid() && t < total && !states[t].used
      modifies states
      ensures Valid()
      ensures states[t] == LifelineState(true, 1)
      ensures forall u :: 0 <= u < total && u != t ==> states[u] == old(states[u])
    {
      states[t] := LifelineState(true, states[t].usageCount + 1);
    }

    method Apply50_50Lifeline(question: Question, rand: nat -> nat) returns (removed: seq<int>)
      requires Valid()
      modifies states
      ensures Valid()
      ensures old(states[FIFTY_FIFTY].used) ==> removed == [] && unchanged(states)
      ensures !old(states[FIFTY_FIFTY].used) ==>
        (removed == FiftyFiftyPick(question.correctAnswerIndex, rand)
         && states[FIFTY_FIFTY] == LifelineState(true, 1)
         && forall u :: 0 <= u < total && u != FIFTY_FIFTY ==> states[u] == old(states[u]))
    {
      if states[FIFTY_FIFTY].used {
        return [];
      }
      var wrongIndices: seq<int> := [];
      var i := 0;
      while i < 4
        invariant 0 <= i <= 4
        invariant wrongIndices == WrongBelow(question.correctAnswerIndex, i)
      {
        if i != question.correctAnswerIndex {
          wrongIndices := wrongIndices + [i];
        }
        i := i + 1;
      }
      wrongIndices := Shuffles.Shuffle(wrongIndices, rand);
      removed := [];
      if |wrongIndices| >= 2 {
        removed := [wrongIndices[0], wrongIndices[1]];
      }
      MarkUsed(FIFTY_FIFTY);
    }

    /**
     * The friend is right when the first draw mod 100 is below 85; otherwise
     * draws mod 4 are taken until one differs from the correct index. The
     * precondition says such a draw eventually comes.
     */
    method ApplyAskFriendLifeline(question: Question, rand: nat -> nat) returns (suggestion: int)
      requires Valid()
      requires !states[ASK_FRIEND].used && rand(0) % 100 >= 85 ==>
        exists k :: k >= 1 && rand(k) % 4 != question.correctAnswerIndex
      modifies states
      ensures Valid()
      ensures old(states[ASK_FRIEND].used) ==> suggestion == -1 && unchanged(states)
      ensures !old(states[ASK_FRIEND].used) ==>
        ((rand(0) % 100 < 85 ==> suggestion == question.correctAnswerIndex)
         && (rand(0) % 100 >= 85 ==> suggestion != question.correctAnswerIndex && 0 <= suggestion < 4)
         && states[ASK_FRIEND] == LifelineState(true, 1)
         && forall u :: 0 <= u < total && u != ASK_FRIEND ==> states[u] == old(states[u]))
    {
      if states[ASK_FRIEND].used {
        return -1;
      }
      var accuracy := rand(0) % 100;
      if accuracy < 85 {
        suggestion := question.correctAnswerIndex;
      } else {
        ghost var bound :| bound >= 1 && rand(bound) % 4 != question.correctAnswerIndex;
        var k := 1;
        suggestion := rand(k) % 4;
        while suggestion == question.correctAnswerIndex
          invariant 1 <= k <= bound
          invariant suggestion == rand(k) % 4
          decreases bound - k
        {
          k := k + 1;
          suggestion := rand(k) % 4;
        }
      }
      MarkUsed(ASK_FRIEND);
    }

    method ApplySkipLifeline() returns (skipped: bool)
      requires Valid()
      modifies states
      ensures Valid()
      ensures skipped == !old(states[SKIP].used)
      ensures !skipped ==> unchanged(states)
      ensures skipped ==>
        (states[SKIP] == LifelineState(true, 1)
         && forall u :: 0 <= u < total && u != SKIP ==> states[u] == old(states[u]))
    {
      if states[SKIP].used {
        return false;
      }
      MarkUsed(SKIP);
      return true;
    }

    /** Only the four-lifeline logic has a hint slot. */
    method ApplyHintLifeline(question: Question) returns (hint: string)
      requires Valid() && total == 4
      modifies states
      ensures Valid()
      ensures old(states[HINT].used) ==> hint == "" && unchanged(states)
      ensures !old(states[HINT].used) ==>
        (hint == question.hint
         && states[HINT] == LifelineState(true, 1)
         && forall u :: 0 <= u < total && u != HINT ==> states[u] == old(states[u]))
    {
      if states[HINT].used {
        return "";
      }
      MarkUsed(HINT);
      return question.hint;
    }

    method ResetLifelines()
      requires Valid()
      modifies states
      ensures Valid()
      ensures forall t :: 0 <= t < total ==> states[t] == LifelineState(false, 0)
      ensures forall t :: 0 <= t < total ==> IsLifelineAvailable(t)
    {
      var i := 0;
      while i < total
        invariant 0 <= i <= total
        invariant forall t :: 0 <= t < i ==> states[t] == LifelineState(false, 0)
        invariant forall t :: i <= t < total ==> states[t] == old(states[t])
        invariant Valid()
      {
        states[i] := LifelineState(false, 0);
        i := i + 1;
      }
    }

    /** Counts the used flags; reads only. */
    method GetTotalLifelinesUsed() returns (n: int)
      requires Valid()
      ensures n == UsedCount(states[..], total)
      ensures 0 <= n <= total
      ensures n == 0 <==> forall t :: 0 <= t < total ==> IsLifelineAvailable(t)
    {
      n := 0;
      var i := 0;
      while i < total
        invariant 0 <= i <= total
        invariant n == UsedCount(states[..], i)
      {
        if states[i].used {
          n := n + 1;
        }
        i := i + 1;
      }
      NoneUsed(states[..], total);
      assert forall t :: 0 <= t < total ==> (IsLifelineAvailable(t) <==> !states[..][t].used);
    }
  }

  lemma {:induction false} NoneUsed(s: seq<LifelineState>, k: nat)
    requires k <= |s|
    ensures UsedCount(s, k) == 0 <==> forall t :: 0 <= t < k ==> !s[t].used
  {
    if k > 0 {
      NoneUsed(s, k - 1);
    }
  }
}
