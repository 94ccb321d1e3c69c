/**
 * The player record, the lifeline history stack and the max-heap of
 * questions ordered by category.
 */
module Players {
  import opened Questions
  import Shuffles

  /** One player's run: counters, the set of asked question ids and one flag per lifeline slot. */
  class Player {
    var name: string
    var gender: string
    var totalWinnings: int
    var questionsAnswered: int
    var currentLevel: int
    var questionsAsked: map<int, bool>
    /** 4 slots in the GUI and root builds (50-50, Ask Friend, Skip, Hint), 3 in the header build. */
    const lifelinesUsed: array<int>

    constructor (slots: nat)
      ensures fresh(lifelinesUsed) && lifelinesUsed.Length == slots
      ensures forall t :: 0 <= t < slots ==> lifelinesUsed[t] == 0
      ensures name == "" && gender == ""
      ensures totalWinnings == 0 && questionsAnswered == 0 && currentLevel == 0
      ensures questionsAsked == map[]
    {
      name, gender := "", "";
      totalWinnings, questionsAnswered, currentLevel := 0, 0, 0;
      questionsAsked := map[];
      lifelinesUsed := new int[slots](_ => 0);
    }

    method RecordQuestion(q: int)
      modifies this`questionsAsked
      ensures questionsAsked == old(questionsAsked)[q := true]
      ensures HasAskedQuestion(q)
      ensures forall p :: p in old(questionsAsked) ==> HasAskedQuestion(p)
    {
      questionsAsked := questionsAsked[q := true];
    }

    predicate HasAskedQuestion(q: int)
      reads this
    {
      q in questionsAsked
    }
  }

  /** The history of lifelines used, most recent on top. */
  class LifelineStack {
    var history: seq<int>

    constructor ()
      ensures history == []
    {
      history := [];
    }

    method UsedLifeline(t: int)
      modifies this
      ensures history == old(history) + [t]
      ensures GetLifelineCount() == old(GetLifelineCount()) + 1
    {
      history := history + [t];
    }

    /** A slot index outside the player's array is undefined behaviour in the source, hence the precondition. */
    predicate CanUseLifeline(t: int, player: Player)
      reads player, player.lifelinesUsed
      requires 0 <= t < player.lifelinesUsed.Length
    {
      player.lifelinesUsed[t] == 0
    }

    function GetLifelineCount(): nat
      reads this
    {
      |history|
    }
  }

  // -----------------------------------------------------------------------
  // The priority queue.

  function Parent(i: nat): nat
    requires i > 0
  {
    (i - 1) / 2
  }

  /** Every element's category is at most its parent's. */
  ghost predicate HeapOrdered(h: seq<Question>)
  {
    forall i :: 0 < i < |h| ==> h[Parent(i)].category >= h[i].category
  }

  /** Ordered except possibly on the edge above k; k's parent still dominates k's children. */
  ghost predicate ExceptAbove(h: seq<Question>, k: nat)
  {
    (forall i :: 0 < i < |h| && i != k ==> h[Parent(i)].category >= h[i].category)
    && (k > 0 ==> forall i :: 0 < i < |h| && Parent(i) == k ==> h[Parent(k)].category >= h[i].category)
  }

  /** Ordered except possibly on the edges below k; k's parent still dominates k's children. */
  ghost predicate ExceptBelow(h: seq<Question>, k: nat)
  {
    (forall i :: 0 < i < |h| && Parent(i) != k ==> h[Parent(i)].category >= h[i].category)
    && (k > 0 ==> forall i :: 0 < i < |h| && Parent(i) == k ==> h[Parent(k)].category >= h[i].category)
  }

  /** In a heap-ordered sequence the root has a maximal category. */
  lemma {:induction false} RootIsMax(h: seq<Question>, i: nat)
    requires HeapOrdered(h) && i < |h|
    ensures h[0].category >= h[i].category
    decreases i
  {
    if i > 0 {
      RootIsMax(h, Parent(i));
    }
  }

  lemma ChildOf(k: nat, j: nat)
    requires j > 0 && Parent(j) == k
    ensures j == 2 * k + 1 || j == 2 * k + 2
  {
  }

  /** The child bubbleDown picks dominates every child of k. */
  lemma LargerChild(h: seq<Question>, k: nat, c: nat)
    requires c < |h| && (c == 2 * k + 1 || c == 2 * k + 2)
    requires c == 2 * k + 1 ==> !(2 * k + 2 < |h| && h[2 * k + 2].category > h[c].category)
    requires c == 2 * k + 2 ==> h[c].category > h[2 * k + 1].category
    ensures forall j :: 0 < j < |h| && Parent(j) == k ==> h[c].category >= h[j].category
  {
    forall j | 0 < j < |h| && Parent(j) == k
      ensures h[c].category >= h[j].category
    {
      ChildOf(k, j);
    }
  }

  /** Swapping k with its larger child c moves the hole down to c. */
  lemma SiftDownStep(h: seq<Question>, k: nat, c: nat)
    requires ExceptBelow(h, k)
    requires c < |h| && (c == 2 * k + 1 || c == 2 * k + 2)
    requires forall j :: 0 < j < |h| && Parent(j) == k ==> h[c].category >= h[j].category
    requires h[k].category < h[c].category
    ensures ExceptBelow(Shuffles.Swap(h, k, c), c)
  {
    var r := Shuffles.Swap(h, k, c);
    assert Parent(c) == k;
    forall i | 0 < i < |r| && Parent(i) != c
      ensures r[Parent(i)].category >= r[i].category
    {
      if i == c {
      } else if Parent(i) == k {
        assert r[i] == h[i];
      } else if i == k {
        assert r[Parent(k)] == h[Parent(k)];
      } else {
        assert r[i] == h[i] && r[Parent(i)] == h[Parent(i)];
      }
    }
    forall i | 0 < i < |r| && Parent(i) == c
      ensures r[Parent(c)].category >= r[i].category
    {
      assert r[i] == h[i];
    }
  }

  /** When k dominates both children, the only possibly broken edges are fine. */
  lemma SiftDownDone(h: seq<Question>, k: nat)
    requires ExceptBelow(h, k)
    requires forall j :: 0 < j < |h| && Parent(j) == k ==> h[k].category >= h[j].category
    ensures HeapOrdered(h)
  {
  }

  /** A hole with no children leaves nothing to repair. */
  lemma SiftDownLeaf(h: seq<Question>, k: nat)
    requires ExceptBelow(h, k) && 2 * k + 1 >= |h|
    ensures HeapOrdered(h)
  {
    forall i | 0 < i < |h| ensures Parent(i) != k {
      if Parent(i) == k { ChildOf(k, i); }
    }
  }

  class QuestionPriorityQueue {
    var heap: seq<Question>

    ghost predicate Valid()
      reads this
    {
      HeapOrdered(heap)
    }

    constructor ()
      ensures Valid() && heap == []
    {
      heap := [];
    }

    method BubbleUp(index: nat)
      requires index < |heap| && ExceptAbove(heap, index)
      modifies this
      ensures Valid()
      ensures multiset(heap) == multiset(old(heap)) && |heap| == |old(heap)|
    {
      var k: nat := index;
      while k > 0 && heap[Parent(k)].category < heap[k].category
        invariant k < |heap| && ExceptAbove(heap, k)
        invariant multiset(heap) == multiset(old(heap)) && |heap| == |old(heap)|
        decreases k
      {
        heap := Shuffles.Swap(heap, k, Parent(k));
        k := Parent(k);
      }
    }

    method BubbleDown(index: nat)
      requires index < |heap| && ExceptBelow(heap, index)
      modifies this
      ensures Valid()
      ensures multiset(heap) == multiset(old(heap)) && |heap| == |old(heap)|
    {
      var h := heap;
      var size := |h|;
      var k: nat := index;
      var done := false;
      while !done && 2 * k + 1 < size
        invariant k < |h| == size && ExceptBelow(h, k)
        invariant multiset(h) == multiset(old(heap))
        invariant done ==> HeapOrdered(h)
        decreases size - k, if done then 0 else 1
      {
        var larger := 2 * k + 1;
        if 2 * k + 2 < size && h[2 * k + 2].category > h[larger].category {
          larger := 2 * k + 2;
        }
        LargerChild(h, k, larger);
        if h[k].category < h[larger].category {
          SiftDownStep(h, k, larger);
          h := Shuffles.Swap(h, k, larger);
          k := larger;
        } else {
          SiftDownDone(h, k);
          done := true;
        }
      }
      if !done {
        SiftDownLeaf(h, k);
      }
      heap := h;
    }

    method Insert(q: Question)
      requires Valid()
      modifies this
      ensures Valid()
      ensures multiset(heap) == multiset(old(heap)) + multiset{q}
      ensures |heap| == |old(heap)| + 1
    {
      heap := heap + [q];
      BubbleUp(|heap| - 1);
    }

    /** Reading `heap[0]` of an empty vector is undefined behaviour in the source, hence the precondition. */
    method ExtractMax() returns (max: Question)
      requires Valid() && heap != []
      modifies this
      ensures Valid()
      ensures max in multiset(old(heap))
      ensures forall x :: x in old(heap) ==> x.category <= max.category
      ensures multiset(heap) + multiset{max} == multiset(old(heap))
      ensures |heap| == |old(heap)| - 1
    {
      max := heap[0];
      forall x | x in heap ensures x.category <= max.category {
        var i :| 0 <= i < |heap| && heap[i] == x;
        RootIsMax(heap, i);
      }
      ghost var h0 := heap;
      heap := heap[0 := heap[|heap| - 1]];
      heap := heap[..|heap| - 1];
      if |h0| > 1 {
        assert h0 == [h0[0]] + h0[1..|h0| - 1] + [h0[|h0| - 1]];
        assert heap == [h0[|h0| - 1]] + h0[1..|h0| - 1];
      } else {
        assert h0 == [max];
      }
      if heap != [] {
        BubbleDown(0);
      }
    }

    predicate IsEmpty()
      reads this
    {
      heap == []
    }
  }
}
