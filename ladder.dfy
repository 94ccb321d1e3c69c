/**
 * The prize ladder: sixteen rungs (level, prize, safety flag) with a cursor.
 * The doubly linked list of the source becomes a sequence of rungs plus the
 * index of the current rung; `next` is index + 1 and `prev` is index - 1.
 *
 * Two tables exist: the GUI build's (safety at 0, 5, 10, 15, with a fall
 * back to the head when no safety rung is found) and the console build's
 * (safety at 3, 7, 11, 15, no fall back).
 */
module PrizeLadders {

  datatype Rung = Rung(level: int, prize: int, safety: bool)

  datatype LadderKind = GuiLadder | ConsoleLadder

  function Prizes(kind: LadderKind): (p: seq<int>)
    ensures |p| == 16
  {
    match kind
    case GuiLadder =>
      [0, 100, 200, 300, 500, 1000, 2000, 4000, 8000, 16000, 32000, 64000, 125000, 250000, 500000, 1000000]
    case ConsoleLadder =>
      [0, 1000, 2000, 5000, 10000, 20000, 40000, 80000, 160000, 320000, 640000, 1250000, 2500000, 5000000, 10000000, 50000000]
  }

  function SafetyFlags(kind: LadderKind): (f: seq<bool>)
    ensures |f| == 16
  {
    match kind
    case GuiLadder =>
      [true, false, false, false, false, true, false, false, false, false, true, false, false, false, false, true]
    case ConsoleLadder =>
      [false, false, false, true, false, false, false, true, false, false, false, true, false, false, false, true]
  }

  /** The rungs `initializeLadder` links together, head first. */
  function Table(kind: LadderKind): (t: seq<Rung>)
    ensures |t| == 16
  {
    seq(16, i requires 0 <= i < 16 => Rung(i, Prizes(kind)[i], SafetyFlags(kind)[i]))
  }

  /** The level of a safety rung: multiples of 5 in the GUI table, 3 mod 4 in the console table. */
  predicate SafeLevel(kind: LadderKind, level: int)
  {
    match kind
    case GuiLadder => level % 5 == 0
    case ConsoleLadder => level % 4 == 3
  }

  /** Rung i holds level i, in order, and its safety flag is set exactly at the safety levels. */
  lemma TableShape(kind: LadderKind)
    ensures forall i :: 0 <= i < 16 ==> Table(kind)[i].level == i
    ensures forall i :: 0 <= i < 16 ==> (Table(kind)[i].safety <==> SafeLevel(kind, i))
    ensures Table(kind)[0].prize == 0
    ensures forall i :: 0 < i < 16 ==> Table(kind)[i - 1].prize < Table(kind)[i].prize
  {
    var p, f := Prizes(kind), SafetyFlags(kind);
    forall i | 0 <= i < 16
      ensures Table(kind)[i].level == i
      ensures Table(kind)[i].safety <==> SafeLevel(kind, i)
      ensures i > 0 ==> Table(kind)[i - 1].prize < Table(kind)[i].prize
    {
      Rung16(i);
      assert Table(kind)[i] == Rung(i, p[i], f[i]);
      if i > 0 {
        assert Table(kind)[i - 1] == Rung(i - 1, p[i - 1], f[i - 1]);
      }
    }
    assert Table(kind)[0] == Rung(0, p[0], f[0]);
  }

  lemma Rung16(i: int)
    requires 0 <= i < 16
    ensures i == 0 || i == 1 || i == 2 || i == 3 || i == 4 || i == 5 || i == 6 || i == 7
         || i == 8 || i == 9 || i == 10 || i == 11 || i == 12 || i == 13 || i == 14 || i == 15
  {
  }

  /** Index of the nearest safety rung strictly below index `k`, or -1 when there is none. */
  function LastSafetyBelow(rs: seq<Rung>, k: nat): (j: int)
    requires k <= |rs|
    ensures -1 <= j < k
    ensures j >= 0 ==> rs[j].safety
    ensures forall i :: j < i < k ==> !rs[i].safety
  {
    if k == 0 then -1 else if rs[k - 1].safety then k - 1 else LastSafetyBelow(rs, k - 1)
  }

  /**
   * Where `moveToSafetyLevel` puts a cursor at index `k > 0`: the nearest
   * safety rung below, or else the head (GUI) or nowhere new (console).
   */
  function SafetyTarget(kind: LadderKind, rs: seq<Rung>, k: nat): int
    requires k <= |rs|
  {
    var j := LastSafetyBelow(rs, k);
    if j >= 0 then j else match kind case GuiLadder => 0 case ConsoleLadder => k
  }

  /** The closed form of the GUI safety target: the previous multiple of 5, so 10 drops to 5. */
  lemma {:induction false} GuiLastSafety(k: nat)
    requires 0 < k <= 16
    ensures LastSafetyBelow(Table(GuiLadder), k) == (k - 1) / 5 * 5
  {
    TableShape(GuiLadder);
    if !Table(GuiLadder)[k - 1].safety {
      GuiLastSafety(k - 1);
    }
  }

  /** Level 0 is a safety rung of the GUI table, so the fall back to the head never fires. */
  lemma GuiHeadFallbackUnreachable(k: nat)
    requires 0 < k <= 16
    ensures LastSafetyBelow(Table(GuiLadder), k) >= 0
    ensures SafetyTarget(GuiLadder, Table(GuiLadder), k) == (k - 1) / 5 * 5
  {
    GuiLastSafety(k);
  }

  /** The console table: no safety rung below 4, otherwise the previous level that is 3 mod 4. */
  lemma {:induction false} ConsoleLastSafety(k: nat)
    requires k <= 16
    ensures LastSafetyBelow(Table(ConsoleLadder), k) == if k <= 3 then -1 else (k - 4) / 4 * 4 + 3
  {
    TableShape(ConsoleLadder);
    if k > 0 && !Table(ConsoleLadder)[k - 1].safety {
      ConsoleLastSafety(k - 1);
    }
  }

  /** Console moves: 9 drops to 7, and 2 (or any level up to 3) stays where it is. */
  lemma ConsoleSafetyTarget(k: nat)
    requires 0 < k <= 16
    ensures SafetyTarget(ConsoleLadder, Table(ConsoleLadder), k) == if k <= 3 then k else (k - 4) / 4 * 4 + 3
  {
    ConsoleLastSafety(k);
  }

  class PrizeLadder {
    const kind: LadderKind
    var rungs: seq<Rung>
    var current: nat
    var totalLevels: int

    ghost predicate Valid()
      reads this
    {
      rungs == Table(kind) && current < |rungs| && totalLevels == |rungs|
    }

    /** The constructor runs `initializeLadder`: sixteen rungs appended in a loop, cursor at the head. */
    constructor (kind: LadderKind)
      ensures Valid() && this.kind == kind
      ensures current == 0
    {
      this.kind := kind;
      var prizes := Prizes(kind);
      var flags := SafetyFlags(kind);
      var rs: seq<Rung> := [];
      var count := 0;
      var i := 0;
      while i < 16
        invariant 0 <= i <= 16
        invariant rs == Table(kind)[..i]
        invariant count == i
      {
        rs := rs + [Rung(i, prizes[i], flags[i])];
        count := count + 1;
        i := i + 1;
      }
      rungs := rs;
      current := 0;
      totalLevels := count;
    }

    function CurrentPrize(): (p: int)
      reads this
      requires Valid()
      ensures p == Prizes(kind)[CurrentLevel()]
    {
      rungs[current].prize
    }

    function CurrentLevel(): (l: int)
      reads this
      requires Valid()
      ensures 0 <= l < 16 && l == current
    {
      rungs[current].level
    }

    function IsSafetyLevel(): (b: bool)
      reads this
      requires Valid()
      ensures b == SafetyFlags(kind)[CurrentLevel()]
      ensures b <==> SafeLevel(kind, CurrentLevel())
    {
      TableShape(kind);
      rungs[current].safety
    }

    /** One rung up, unless already at the top. */
    method MoveForward()
      requires Valid()
      modifies this`current
      ensures Valid()
      ensures current == if old(current) < 15 then old(current) + 1 else old(current)
    {
      if current + 1 < |rungs| {
        current := current + 1;
      }
    }

    /** Scan backwards from the rung below the cursor for a safety rung. */
    method MoveToSafetyLevel()
      requires Valid()
      modifies this`current
      ensures Valid()
      ensures old(current) == 0 ==> current == 0
      ensures old(current) > 0 ==> current == SafetyTarget(kind, rungs, old(current))
    {
      if current > 0 {
        var t: int := current - 1;
        while t >= 0 && !rungs[t].safety
          invariant -1 <= t < current
          invariant LastSafetyBelow(rungs, current) == LastSafetyBelow(rungs, t + 1)
        {
          t := t - 1;
        }
        if t >= 0 {
          current := t;
        } else if kind == GuiLadder {
          current := 0;
        }
      }
    }

    /** Back to the head: level 0, prize 0. */
    method ResetLadder()
      requires Valid()
      modifies this`current
      ensures Valid()
      ensures CurrentLevel() == 0 && CurrentPrize() == 0
    {
      current := 0;
    }
  }
}
