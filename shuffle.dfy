/**
 * The Fisher-Yates loop the game uses for the 50-50 lifeline and for the
 * question list: for i from the last index down to 1, swap cell i with
 * cell `rand() % (i + 1)`. `rand` is an oracle giving the value drawn at
 * step i.
 */
module Shuffles {

  function Swap<T>(s: seq<T>, i: nat, j: nat): (r: seq<T>)
    requires i < |s| && j < |s|
    ensures |r| == |s| && multiset(r) == multiset(s)
    ensures r[i] == s[j] && r[j] == s[i]
    ensures forall k :: 0 <= k < |s| && k != i && k != j ==> r[k] == s[k]
  {
    s[i := s[j]][j := s[i]]
  }

  /** Steps i, i-1, ..., 1 of the loop applied to `s`. */
  function ShuffleFrom<T>(s: seq<T>, i: nat, rand: nat -> nat): seq<T>
    requires i < |s|
    decreases i
  {
    if i == 0 then s else ShuffleFrom(Swap(s, i, rand(i) % (i + 1)), i - 1, rand)
  }

  /** The whole loop; with fewer than two cells it does not run. */
  function FisherYates<T>(s: seq<T>, rand: nat -> nat): seq<T>
  {
    if |s| < 2 then s else ShuffleFrom(s, |s| - 1, rand)
  }

  predicate Distinct<T(==)>(s: seq<T>)
  {
    forall i, j :: 0 <= i < j < |s| ==> s[i] != s[j]
  }

  /** Whatever the draws, the loop only rearranges: same length, same elements, same multiplicities, no new duplicates. */
  lemma {:induction false} ShuffleFromPermutes<T>(s: seq<T>, i: nat, rand: nat -> nat)
    requires i < |s|
    ensures |ShuffleFrom(s, i, rand)| == |s|
    ensures multiset(ShuffleFrom(s, i, rand)) == multiset(s)
    ensures Distinct(s) ==> Distinct(ShuffleFrom(s, i, rand))
    decreases i
  {
    if i > 0 {
      var t := Swap(s, i, rand(i) % (i + 1));
      if Distinct(s) {
        SwapDistinct(s, i, rand(i) % (i + 1));
      }
      ShuffleFromPermutes(t, i - 1, rand);
    }
  }

  lemma SwapDistinct<T>(s: seq<T>, i: nat, j: nat)
    requires i < |s| && j < |s| && Distinct(s)
    ensures Distinct(Swap(s, i, j))
  {
    var r := Swap(s, i, j);
    forall a, b | 0 <= a < b < |r| ensures r[a] != r[b] {
      var a' := if a == i then j else if a == j then i else a;
      var b' := if b == i then j else if b == j then i else b;
      assert r[a] == s[a'] && r[b] == s[b'];
      assert a' != b';
      if a' > b' { assert s[b'] != s[a']; }
    }
  }

  lemma FisherYatesPermutes<T>(s: seq<T>, rand: nat -> nat)
    ensures |FisherYates(s, rand)| == |s|
    ensures multiset(FisherYates(s, rand)) == multiset(s)
    ensures Distinct(s) ==> Distinct(FisherYates(s, rand))
  {
    if |s| >= 2 {
      ShuffleFromPermutes(s, |s| - 1, rand);
    }
  }

  /** The loop itself, on a local copy of the sequence. */
  method Shuffle<T>(s: seq<T>, rand: nat -> nat) returns (r: seq<T>)
    ensures r == FisherYates(s, rand)
    ensures multiset(r) == multiset(s) && |r| == |s|
  {
    FisherYatesPermutes(s, rand);
    r := s;
    var i: int := |s| - 1;
    while i > 0
      invariant -1 <= i < |s| && |r| == |s|
      invariant |s| >= 2 ==> i >= 0 && ShuffleFrom(r, i, rand) == FisherYates(s, rand)
      invariant |s| < 2 ==> r == s
    {
      var j := rand(i) % (i + 1);
      r := Swap(r, i, j);
      i := i - 1;
    }
  }
}
