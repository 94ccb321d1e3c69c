/**
 * The first, single-file version of the game (version1.0.cpp): a prize
 * list of fifteen amounts with safety points, a bounded stack of console
 * lifelines, a stable merge sort of player profiles, the `|` splitter and
 * the question loader built on it. In the source all of these sit inside
 * one class; here each is modelled on its own.
 */
module Version1 {
  import opened Wrappers
  import opened Text

  // ---------------------------------------------------------------------
  // Splitting a line on '|'.

  /**
   * The parts of `s` between the delimiters `d`, left to right. Unlike the
   * `getline` tokens, an empty line gives one empty part and a delimiter at
   * the end gives an empty last part.
   */
  function Split(s: string, d: char): seq<string>
    decreases |s|
  {
    if |s| == 0 then [""]
    else
      var e := IndexOf(s, d);
      if e == |s| then [s] else [s[..e]] + Split(s[e + 1..], d)
  }

  /** One part of the split: the part starting at `start` ends at the delimiter at `e`. */
  lemma SplitStep(s: string, d: char, start: nat, e: nat)
    requires start <= e < |s| && s[e] == d
    requires Free(s[start..e], d)
    ensures Split(s[start..], d) == [s[start..e]] + Split(s[e + 1..], d)
  {
    var t := s[start..];
    assert forall k :: 0 <= k < e - start ==> t[k] == s[start..e][k];
    IndexOfUnique(t, d, e - start);
    assert t[..e - start] == s[start..e];
    assert t[e - start + 1..] == s[e + 1..];
  }

  /** A line free of `d` is a single part. */
  lemma SplitFree(s: string, d: char)
    requires Free(s, d)
    ensures Split(s, d) == [s]
  {
    if |s| > 0 {
      IndexOfUnique(s, d, |s|);
    }
  }

  /** A sequence is what lies before position `e`, the element there, and what lies after. */
  lemma SliceAround<T>(s: seq<T>, e: nat)
    requires e < |s|
    ensures s == s[..e] + [s[e]] + s[e + 1..]
  {
  }

  lemma {:induction false} SplitCount(s: string, d: char)
    ensures |Split(s, d)| == multiset(s)[d] + 1
    decreases |s|
  {
    if |s| > 0 {
      var e := IndexOf(s, d);
      if e == |s| {
        assert d !in s;
      } else {
        var rest := s[e + 1..];
        SplitCount(rest, d);
        SliceAround(s, e);
        assert d !in s[..e];
        assert multiset(s) == multiset(s[..e]) + multiset{d} + multiset(rest);
      }
    }
  }

  lemma {:induction false} SplitPartsFree(s: string, d: char)
    ensures AllFree(Split(s, d), d)
    decreases |s|
  {
    if |s| > 0 {
      var e := IndexOf(s, d);
      if e < |s| {
        SplitPartsFree(s[e + 1..], d);
        assert Free(s[..e], d);
      }
    }
  }

  lemma {:induction false} SplitJoinBack(s: string, d: char)
    ensures Join(Split(s, d), d) == s
    decreases |s|
  {
    if |s| > 0 {
      var e := IndexOf(s, d);
      if e < |s| {
        var rest := s[e + 1..];
        SplitJoinBack(rest, d);
        SplitCount(rest, d);
        var ps := Split(rest, d);
        assert Split(s, d) == [s[..e]] + ps;
        JoinCons(s[..e], ps, d);
        SliceAround(s, e);
      }
    }
  }

  /**
   * The split has one part more than the line has delimiters, no part
   * holds the delimiter, and joining the parts with it gives the line back.
   */
  lemma SplitJoin(s: string, d: char)
    ensures |Split(s, d)| == multiset(s)[d] + 1
    ensures AllFree(Split(s, d), d)
    ensures Join(Split(s, d), d) == s
  {
    SplitCount(s, d);
    SplitPartsFree(s, d);
    SplitJoinBack(s, d);
  }

  /** The other way round: splitting joined parts free of the delimiter gives back the parts. */
  lemma {:induction false} SplitOfJoin(parts: seq<string>, d: char)
    requires |parts| >= 1 && AllFree(parts, d)
    ensures Split(Join(parts, d), d) == parts
  {
    if |parts| == 1 {
      SplitFree(parts[0], d);
    } else {
      var rest := Join(parts[1..], d);
      var t := parts[0] + [d] + rest;
      assert Join(parts, d) == t;
      SplitStep(t, d, 0, |parts[0]|);
      assert t[0..] == t && t[..|parts[0]|] == parts[0] && t[|parts[0]| + 1..] == rest;
      SplitOfJoin(parts[1..], d);
    }
  }

  lemma JoinCons(x: string, ps: seq<string>, d: char)
    requires |ps| >= 1
    ensures Join([x] + ps, d) == x + [d] + Join(ps, d)
  {
    assert ([x] + ps)[1..] == ps;
  }

  lemma {:induction false} JoinSnoc(ps: seq<string>, x: string, d: char)
    requires |ps| >= 1
    ensures Join(ps + [x], d) == Join(ps, d) + [d] + x
  {
    if |ps| == 1 {
      assert ps + [x] == [ps[0]] + [x];
      JoinCons(ps[0], [x], d);
    } else {
      assert ps + [x] == [ps[0]] + (ps[1..] + [x]);
      JoinCons(ps[0], ps[1..] + [x], d);
      JoinSnoc(ps[1..], x, d);
      JoinCons(ps[0], ps[1..], d);
      assert [ps[0]] + ps[1..] == ps;
    }
  }

  /** `splitPipe`: one pass over the characters, closing a part at every '|' and once more at the end. */
  method SplitPipe(line: string) returns (parts: seq<string>)
    ensures parts == Split(line, '|')
  {
    parts := [];
    var cur := "";
    for i := 0 to |line|
      invariant AllFree(parts, '|') && Free(cur, '|')
      invariant Join(parts + [cur], '|') == line[..i]
    {
      var c := line[i];
      assert line[..i + 1] == line[..i] + [c];
      if c == '|' {
        JoinSnoc(parts + [cur], "", '|');
        parts := parts + [cur];
        cur := "";
      } else {
        if |parts| == 0 {
          assert parts + [cur + [c]] == [cur + [c]];
        } else {
          JoinSnoc(parts, cur, '|');
          JoinSnoc(parts, cur + [c], '|');
        }
        cur := cur + [c];
      }
    }
    parts := parts + [cur];
    assert line[..|line|] == line;
    SplitOfJoin(parts, '|');
  }

  // ---------------------------------------------------------------------
  // The question loader.

  datatype Question = Question(id: string, difficulty: int, text: string, opts: seq<string>, correctIndex: int, hint: string)

  /** A line the loader keeps: not empty and split into at least nine parts. */
  predicate Kept(line: string)
  {
    line != [] && |Split(line, '|')| >= 9
  }

  /** A kept line's numeric parts (the difficulty and the correct index) are read by an unguarded `stoi`. */
  predicate LineOk(line: string)
  {
    Kept(line) ==> ParseInt(Split(line, '|')[1]).Some? && ParseInt(Split(line, '|')[7]).Some?
  }

  /** The record a kept line gives: parts 0 to 8 in order, extra parts ignored. */
  function Record(line: string): Question
    requires Kept(line) && LineOk(line)
  {
    var p := Split(line, '|');
    Question(p[0], ParseInt(p[1]).value, p[2], p[3..7], ParseInt(p[7]).value, p[8])
  }

  /** The records of `lines`, in file order, one for each kept line. */
  function Parsed(lines: seq<string>): seq<Question>
    requires forall k :: 0 <= k < |lines| ==> LineOk(lines[k])
  {
    if |lines| == 0 then []
    else (if Kept(lines[0]) then [Record(lines[0])] else []) + Parsed(lines[1..])
  }

  lemma {:induction false} ParsedAppend(lines: seq<string>, line: string)
    requires forall k :: 0 <= k < |lines| ==> LineOk(lines[k])
    requires LineOk(line)
    ensures Parsed(lines + [line]) == Parsed(lines) + (if Kept(line) then [Record(line)] else [])
  {
    if |lines| > 0 {
      assert (lines + [line])[1..] == lines[1..] + [line];
      ParsedAppend(lines[1..], line);
    } else {
      assert Parsed([line] + []) == (if Kept(line) then [Record(line)] else []) + Parsed([]);
    }
  }

  /** The line that stores `q`: its nine fields joined with '|'. */
  function QuestionLine(q: Question): string
    requires |q.opts| == 4
  {
    Join([q.id, IntToString(q.difficulty), q.text] + q.opts + [IntToString(q.correctIndex), q.hint], '|')
  }

  /** A question whose text fields hold no '|' is stored on a kept line that loads back as the same question. */
  lemma QuestionLineRoundTrip(q: Question)
    requires |q.opts| == 4
    requires AllFree([q.id, q.text] + q.opts + [q.hint], '|')
    ensures Kept(QuestionLine(q)) && LineOk(QuestionLine(q))
    ensures Record(QuestionLine(q)) == q
  {
    var fields := [q.id, IntToString(q.difficulty), q.text] + q.opts + [IntToString(q.correctIndex), q.hint];
    IntToStringFree(q.difficulty, '|');
    IntToStringFree(q.correctIndex, '|');
    assert fields[1] == IntToString(q.difficulty) && fields[7] == IntToString(q.correctIndex);
    assert forall k :: 0 <= k < 9 && k != 1 && k != 7 ==> Free(fields[k], '|') by {
      var free := [q.id, q.text] + q.opts + [q.hint];
      assert fields[0] == free[0] && fields[2] == free[1] && fields[8] == free[6];
      assert forall k :: 3 <= k < 7 ==> fields[k] == free[k - 1];
    }
    assert AllFree(fields, '|');
    SplitOfJoin(fields, '|');
    SplitCount(QuestionLine(q), '|');
    ParseIntOfIntToString(q.difficulty);
    ParseIntOfIntToString(q.correctIndex);
    assert fields[3..7] == q.opts;
  }

  /**
   * The second `loadQuestionsFromFile`: `None` stands for a file that does
   * not open, which gives no questions. Empty lines and lines of fewer
   * than nine parts are skipped.
   */
  predicate FileOk(text: string)
  {
    forall k :: 0 <= k < |Tokens(text, '\n')| ==> LineOk(Tokens(text, '\n')[k])
  }

  method LoadQuestionsFromFile(file: Option<string>) returns (out: seq<Question>)
    requires file.Some? ==> FileOk(file.value)
    ensures file.None? ==> out == []
    ensures file.Some? ==> out == Parsed(Tokens(file.value, '\n'))
  {
    out := [];
    if file.None? {
      return;
    }
    var lines := ReadTokens(file.value, '\n');
    for i := 0 to |lines|
      invariant out == Parsed(lines[..i])
    {
      var line := lines[i];
      var q := LoadLine(line);
      assert lines[..i + 1] == lines[..i] + [line];
      ParsedAppend(lines[..i], line);
      if q.Some? {
        out := out + [q.value];
      }
    }
    assert lines[..|lines|] == lines;
  }

  /** One turn of the loader: an empty or short line gives nothing, any other line its record. */
  method LoadLine(line: string) returns (q: Option<Question>)
    requires LineOk(line)
    ensures q == if Kept(line) then Some(Record(line)) else None
  {
    if line == [] {
      return None;
    }
    var parts := SplitPipe(line);
    if |parts| < 9 {
      return None;
    }
    var difficulty := ParseInt(parts[1]).value;
    var correctIndex := ParseInt(parts[7]).value;
    assert [parts[3], parts[4], parts[5], parts[6]] == parts[3..7];
    return Some(Question(parts[0], difficulty, parts[2], [parts[3], parts[4], parts[5], parts[6]], correctIndex, parts[8]));
  }

  // ---------------------------------------------------------------------
  // The leaderboard: a stable merge sort of profiles.

  datatype PlayerProfile = PlayerProfile(name: string, highScore: int, gamesPlayed: int, totalScore: int)

  /** `x` may stand before `y`: a higher high score, or the same high score and at least the total score. */
  predicate Precedes(x: PlayerProfile, y: PlayerProfile)
  {
    x.highScore > y.highScore || (x.highScore == y.highScore && x.totalScore >= y.totalScore)
  }

  /** Each profile may stand before the next. */
  predicate Sorted(s: seq<PlayerProfile>)
  {
    forall i :: 0 < i < |s| ==> Precedes(s[i - 1], s[i])
  }

  /** Scores `hs`, `ts` must stand strictly before `x`. */
  predicate Ahead(hs: int, ts: int, x: PlayerProfile)
  {
    hs > x.highScore || (hs == x.highScore && ts > x.totalScore)
  }

  /** The profiles of `s` with high score `hs` and total score `ts`, in their order in `s`. */
  function WithScore(s: seq<PlayerProfile>, hs: int, ts: int): seq<PlayerProfile>
  {
    if |s| == 0 then []
    else (if s[0].highScore == hs && s[0].totalScore == ts then [s[0]] else []) + WithScore(s[1..], hs, ts)
  }

  lemma {:induction false} WithScoreAppend(a: seq<PlayerProfile>, b: seq<PlayerProfile>)
    ensures forall hs, ts :: WithScore(a + b, hs, ts) == WithScore(a, hs, ts) + WithScore(b, hs, ts)
  {
    forall hs, ts
      ensures WithScore(a + b, hs, ts) == WithScore(a, hs, ts) + WithScore(b, hs, ts)
    {
      WithScoreAppend1(a, b, hs, ts);
    }
  }

  lemma {:induction false} WithScoreAppend1(a: seq<PlayerProfile>, b: seq<PlayerProfile>, hs: int, ts: int)
    ensures WithScore(a + b, hs, ts) == WithScore(a, hs, ts) + WithScore(b, hs, ts)
  {
    if |a| == 0 {
      assert a + b == b;
    } else {
      assert (a + b)[1..] == a[1..] + b;
      WithScoreAppend1(a[1..], b, hs, ts);
    }
  }

  lemma WithScoreCons(x: PlayerProfile, t: seq<PlayerProfile>, hs: int, ts: int)
    ensures WithScore([x] + t, hs, ts) == (if x.highScore == hs && x.totalScore == ts then [x] else []) + WithScore(t, hs, ts)
  {
    assert ([x] + t)[1..] == t;
  }

  /** Scores strictly ahead of the front of a sorted list belong to none of its profiles. */
  lemma {:induction false} WithScoreAhead(s: seq<PlayerProfile>, hs: int, ts: int)
    requires Sorted(s) && |s| > 0 && Ahead(hs, ts, s[0])
    ensures WithScore(s, hs, ts) == []
  {
    if |s| > 1 {
      assert Precedes(s[0], s[1]);
      WithScoreAhead(s[1..], hs, ts);
    }
  }

  /** `mergeSorted`: the front that may stand first is taken, `a`'s on a full tie. */
  function Merge(a: seq<PlayerProfile>, b: seq<PlayerProfile>): (r: seq<PlayerProfile>)
    ensures |r| == |a| + |b|
    decreases |a| + |b|
  {
    if |a| == 0 then b
    else if |b| == 0 then a
    else if Precedes(a[0], b[0]) then [a[0]] + Merge(a[1..], b)
    else [b[0]] + Merge(a, b[1..])
  }

  lemma HeadTail<T>(s: seq<T>)
    requires |s| > 0
    ensures [s[0]] + s[1..] == s
    ensures multiset(s) == multiset{s[0]} + multiset(s[1..])
  {
    assert s == [s[0]] + s[1..];
  }

  lemma {:induction false} MergePermutes(a: seq<PlayerProfile>, b: seq<PlayerProfile>)
    ensures multiset(Merge(a, b)) == multiset(a) + multiset(b)
    decreases |a| + |b|
  {
    if |a| > 0 && |b| > 0 {
      if Precedes(a[0], b[0]) {
        MergePermutes(a[1..], b);
        HeadTail(a);
      } else {
        MergePermutes(a, b[1..]);
        HeadTail(b);
      }
    }
  }

  /** The merge starts with the front of `a` or the front of `b`. */
  lemma MergeFront(a: seq<PlayerProfile>, b: seq<PlayerProfile>)
    requires |a| > 0 || |b| > 0
    ensures |Merge(a, b)| > 0
    ensures (|a| > 0 && Merge(a, b)[0] == a[0]) || (|b| > 0 && Merge(a, b)[0] == b[0])
  {
  }

  lemma SortedCons(x: PlayerProfile, t: seq<PlayerProfile>)
    requires Sorted(t)
    requires |t| > 0 ==> Precedes(x, t[0])
    ensures Sorted([x] + t)
  {
    var s := [x] + t;
    assert forall i :: 0 < i < |t| ==> s[i] == t[i - 1] && s[i + 1] == t[i];
  }

  lemma SortedTail(s: seq<PlayerProfile>)
    requires Sorted(s) && |s| > 0
    ensures Sorted(s[1..])
  {
    assert forall i :: 0 < i < |s| - 1 ==> s[1..][i - 1] == s[i] && s[1..][i] == s[i + 1];
  }

  /** Merging two sorted lists gives a sorted list. */
  lemma {:induction false} MergeSorted(a: seq<PlayerProfile>, b: seq<PlayerProfile>)
    requires Sorted(a) && Sorted(b)
    ensures Sorted(Merge(a, b))
    decreases |a| + |b|
  {
    if |a| > 0 && |b| > 0 {
      if Precedes(a[0], b[0]) {
        SortedTail(a);
        MergeSorted(a[1..], b);
        MergeFront(a[1..], b);
        if |a| > 1 {
          assert Precedes(a[0], a[1]);
        }
        SortedCons(a[0], Merge(a[1..], b));
      } else {
        SortedTail(b);
        MergeSorted(a, b[1..]);
        MergeFront(a, b[1..]);
        if |b| > 1 {
          assert Precedes(b[0], b[1]);
        }
        SortedCons(b[0], Merge(a, b[1..]));
      }
    }
  }

  /** On two sorted lists the merge keeps, for every pair of scores, the profiles of `a` before those of `b`. */
  lemma {:induction false} MergeStable(a: seq<PlayerProfile>, b: seq<PlayerProfile>, hs: int, ts: int)
    requires Sorted(a) && Sorted(b)
    ensures WithScore(Merge(a, b), hs, ts) == WithScore(a, hs, ts) + WithScore(b, hs, ts)
    decreases |a| + |b|
  {
    if |a| > 0 && |b| > 0 {
      if Precedes(a[0], b[0]) {
        SortedTail(a);
        MergeStable(a[1..], b, hs, ts);
        StableTakeFirst(a, b, Merge(a[1..], b), hs, ts);
      } else {
        SortedTail(b);
        MergeStable(a, b[1..], hs, ts);
        StableTakeSecond(a, b, Merge(a, b[1..]), hs, ts);
      }
    }
  }

  /** The merge step that takes the front of `a` keeps the profiles of `a` first. */
  lemma StableTakeFirst(a: seq<PlayerProfile>, b: seq<PlayerProfile>, t: seq<PlayerProfile>, hs: int, ts: int)
    requires |a| > 0
    requires WithScore(t, hs, ts) == WithScore(a[1..], hs, ts) + WithScore(b, hs, ts)
    ensures WithScore([a[0]] + t, hs, ts) == WithScore(a, hs, ts) + WithScore(b, hs, ts)
  {
    WithScoreCons(a[0], t, hs, ts);
    WithScoreCons(a[0], a[1..], hs, ts);
    HeadTail(a);
    Assoc(if a[0].highScore == hs && a[0].totalScore == ts then [a[0]] else [], WithScore(a[1..], hs, ts), WithScore(b, hs, ts));
  }

  /**
   * The merge step that takes the front of `b` moves no profile of `b`
   * ahead of one of `a` with the same scores: a tie would have taken `a`'s.
   */
  lemma StableTakeSecond(a: seq<PlayerProfile>, b: seq<PlayerProfile>, t: seq<PlayerProfile>, hs: int, ts: int)
    requires Sorted(a) && |a| > 0 && |b| > 0 && !Precedes(a[0], b[0])
    requires WithScore(t, hs, ts) == WithScore(a, hs, ts) + WithScore(b[1..], hs, ts)
    ensures WithScore([b[0]] + t, hs, ts) == WithScore(a, hs, ts) + WithScore(b, hs, ts)
  {
    var wa, wb1, wt := WithScore(a, hs, ts), WithScore(b[1..], hs, ts), WithScore(t, hs, ts);
    WithScoreCons(b[0], t, hs, ts);
    WithScoreCons(b[0], b[1..], hs, ts);
    HeadTail(b);
    if b[0].highScore == hs && b[0].totalScore == ts {
      assert Ahead(hs, ts, a[0]);
      WithScoreAhead(a, hs, ts);
      assert wa + wb1 == wb1;
      Assoc(wa, [b[0]], wb1);
    } else {
      assert [] + wt == wt && [] + wb1 == wb1;
    }
  }

  /**
   * `mergeSortProfiles`: the profiles ordered by high score, then total
   * score, both descending; profiles with the same two scores keep their
   * input order, so the sort is stable.
   */
  function MergeSortProfiles(arr: seq<PlayerProfile>): (r: seq<PlayerProfile>)
    ensures multiset(r) == multiset(arr)
    ensures Sorted(r)
    ensures forall hs, ts :: WithScore(r, hs, ts) == WithScore(arr, hs, ts)
    decreases |arr|
  {
    if |arr| <= 1 then arr
    else
      var mid := |arr| / 2;
      var left := MergeSortProfiles(arr[..mid]);
      var right := MergeSortProfiles(arr[mid..]);
      SortHalves(arr, mid, left, right);
      Merge(left, right)
  }

  /** The merge of the sorted halves is a stable sort of the whole. */
  lemma SortHalves(arr: seq<PlayerProfile>, mid: nat, left: seq<PlayerProfile>, right: seq<PlayerProfile>)
    requires mid <= |arr|
    requires multiset(left) == multiset(arr[..mid]) && multiset(right) == multiset(arr[mid..])
    requires Sorted(left) && Sorted(right)
    requires forall hs, ts :: WithScore(left, hs, ts) == WithScore(arr[..mid], hs, ts)
    requires forall hs, ts :: WithScore(right, hs, ts) == WithScore(arr[mid..], hs, ts)
    ensures multiset(Merge(left, right)) == multiset(arr)
    ensures Sorted(Merge(left, right))
    ensures forall hs, ts :: WithScore(Merge(left, right), hs, ts) == WithScore(arr, hs, ts)
  {
    assert arr == arr[..mid] + arr[mid..];
    MergePermutes(left, right);
    MergeSorted(left, right);
    WithScoreAppend(arr[..mid], arr[mid..]);
    forall hs, ts
      ensures WithScore(Merge(left, right), hs, ts) == WithScore(arr, hs, ts)
    {
      MergeStable(left, right, hs, ts);
    }
  }

  /** One turn of the merge loop, on the rests of both lists. */
  lemma MergeStep(a: seq<PlayerProfile>, b: seq<PlayerProfile>, i: nat, j: nat)
    requires i < |a| && j < |b|
    ensures Merge(a[i..], b[j..]) ==
      if Precedes(a[i], b[j]) then [a[i]] + Merge(a[i + 1..], b[j..]) else [b[j]] + Merge(a[i..], b[j + 1..])
  {
    assert a[i..][1..] == a[i + 1..] && b[j..][1..] == b[j + 1..];
  }

  /** Once one list is used up, the merge of the rests is the other rest. */
  lemma EmptyRest(a: seq<PlayerProfile>, b: seq<PlayerProfile>, i: nat, j: nat)
    requires i <= |a| && j <= |b| && (i == |a| || j == |b|)
    ensures Merge(a[i..], b[j..]) == a[i..] + b[j..]
  {
    if i == |a| {
      assert a[i..] == [];
    } else {
      assert b[j..] == [];
    }
  }

  /** The two closing loops of `mergeSorted`: whatever is left of one list is copied over. */
  method AppendFrom(res: seq<PlayerProfile>, s: seq<PlayerProfile>, k: nat) returns (r: seq<PlayerProfile>)
    requires k <= |s|
    ensures r == res + s[k..]
  {
    r := res;
    var i := k;
    while i < |s|
      invariant k <= i <= |s|
      invariant r + s[i..] == res + s[k..]
    {
      assert s[i..] == [s[i]] + s[i + 1..];
      r := r + [s[i]];
      i := i + 1;
    }
  }
  /** The index loops of `mergeSorted`. */
  method MergeProfiles(a: seq<PlayerProfile>, b: seq<PlayerProfile>) returns (res: seq<PlayerProfile>)
    ensures res == Merge(a, b)
  {
    res := [];
    var i, j := 0, 0;
    ghost var rest := Merge(a, b);
    while i < |a| && j < |b|
      invariant 0 <= i <= |a| && 0 <= j <= |b|
      invariant rest == Merge(a[i..], b[j..])
      invariant res + rest == Merge(a, b)
      decreases |a| - i + |b| - j
    {
      MergeStep(a, b, i, j);
      var takeLeft;
      if a[i].highScore > b[j].highScore {
        takeLeft := true;
      } else if a[i].highScore < b[j].highScore {
        takeLeft := false;
      } else {
        takeLeft := a[i].totalScore >= b[j].totalScore;
      }
      if takeLeft {
        ghost var t := Merge(a[i + 1..], b[j..]);
        Assoc(res, [a[i]], t);
        res, i, rest := res + [a[i]], i + 1, t;
      } else {
        ghost var t := Merge(a[i..], b[j + 1..]);
        Assoc(res, [b[j]], t);
        res, j, rest := res + [b[j]], j + 1, t;
      }
    }
    EmptyRest(a, b, i, j);
    Assoc(res, a[i..], b[j..]);
    res := AppendFrom(res, a, i);
    res := AppendFrom(res, b, j);
  }

  // ---------------------------------------------------------------------
  // The prize list.

  datatype Node = Node(amount: int, safety: bool)

  const AMOUNTS: seq<int> :=
    [100, 200, 300, 500, 1000, 2000, 4000, 8000, 16000, 32000, 64000, 125000, 250000, 500000, 1000000]

  /** The largest 1-based position at most `idx` whose node is a safety point, or 0 when there is none. */
  function LastSafeUpTo(nodes: seq<Node>, idx: int): nat
    decreases if idx > 0 then idx else 0
  {
    if idx <= 0 || |nodes| == 0 then 0
    else if idx > |nodes| then LastSafeUpTo(nodes, |nodes|)
    else if nodes[idx - 1].safety then idx
    else LastSafeUpTo(nodes, idx - 1)
  }

  /**
   * A non-zero result is a 1-based position within reach whose node is a
   * safety point, and no node after it within reach is one (zero-based
   * `k` below is position `k + 1`).
   */
  lemma {:induction false} LastSafeUpToIsLast(nodes: seq<Node>, idx: int)
    ensures LastSafeUpTo(nodes, idx) > 0 ==>
      LastSafeUpTo(nodes, idx) <= idx && LastSafeUpTo(nodes, idx) <= |nodes| && nodes[LastSafeUpTo(nodes, idx) - 1].safety
    ensures forall k :: LastSafeUpTo(nodes, idx) <= k < idx && k < |nodes| ==> !nodes[k].safety
    decreases if idx > 0 then idx else 0
  {
    if idx <= 0 || |nodes| == 0 {
    } else if idx > |nodes| {
      LastSafeUpToIsLast(nodes, |nodes|);
    } else if !nodes[idx - 1].safety {
      LastSafeUpToIsLast(nodes, idx - 1);
    }
  }

  /** With the fifteen-node table the safety points are at positions 5 and 10, so for example 7 gives 5, 3 gives 0 and 10 gives 10. */
  lemma LastSafeOfTable(nodes: seq<Node>)
    requires |nodes| == 15
    requires forall i :: 0 <= i < 15 ==> (nodes[i].safety <==> i == 4 || i == 9)
    ensures LastSafeUpTo(nodes, 3) == 0 && LastSafeUpTo(nodes, 7) == 5
    ensures LastSafeUpTo(nodes, 10) == 10 && LastSafeUpTo(nodes, 15) == 10
  {
    assert !nodes[2].safety && !nodes[1].safety && !nodes[0].safety;
    assert LastSafeUpTo(nodes, 3) == 0;
    assert nodes[4].safety && !nodes[5].safety && !nodes[6].safety;
    assert LastSafeUpTo(nodes, 7) == 5;
    assert forall i :: 10 <= i < 15 ==> !nodes[i].safety;
    assert LastSafeUpTo(nodes, 12) == 10;
  }

  class PrizeLadder {
    var nodes: seq<Node>

    constructor ()
      ensures nodes == []
    {
      nodes := [];
    }

    /**
     * `prizelist`: links fifteen nodes in table order, with safety points at
     * the fifth and tenth. The loop starts with a null tail, so the list
     * must still be empty.
     */
    method Prizelist()
      requires nodes == []
      modifies this`nodes
      ensures |nodes| == |AMOUNTS| == 15
      ensures forall i :: 0 <= i < 15 ==> nodes[i].amount == AMOUNTS[i] && (nodes[i].safety <==> i == 4 || i == 9)
    {
      var amounts := AMOUNTS;
      for i := 0 to |amounts|
        invariant |nodes| == i
        invariant forall k :: 0 <= k < i ==> nodes[k] == Node(AMOUNTS[k], k == 4 || k == 9)
      {
        var safe := i == 4 || i == 9;
        nodes := nodes + [Node(amounts[i], safe)];
      }
    }

    /** `getAmountAt`: the amount of the node at zero-based `idx`, or 0 when there is none. */
    method GetAmountAt(idx: int) returns (amount: int)
      ensures 0 <= idx < |nodes| ==> amount == nodes[idx].amount
      ensures idx < 0 || idx >= |nodes| ==> amount == 0
    {
      var i := 0;
      while i < |nodes|
        invariant 0 <= i <= |nodes|
        invariant idx < 0 || idx >= i
      {
        if i == idx {
          return nodes[i].amount;
        }
        i := i + 1;
      }
      return 0;
    }

    /** `lastSafetyIndexBefore`: the walk over the first `idx` nodes, remembering the last safety point. */
    method LastSafetyIndexBefore(idx: int) returns (lastSafe: int)
      ensures lastSafe == LastSafeUpTo(nodes, idx)
    {
      var i := 1;
      lastSafe := 0;
      while i <= |nodes| && i <= idx
        invariant 1 <= i <= |nodes| + 1
        invariant i <= idx + 1 || i == 1
        invariant lastSafe == LastSafeUpTo(nodes, i - 1)
      {
        if nodes[i - 1].safety {
          lastSafe := i;
        }
        i := i + 1;
      }
      if idx > |nodes| && |nodes| > 0 {
        assert LastSafeUpTo(nodes, idx) == LastSafeUpTo(nodes, |nodes|);
      }
    }

    /** `size`: the number of nodes counted along the list. */
    method Size() returns (count: int)
      ensures count == |nodes|
    {
      count := 0;
      while count < |nodes|
        invariant 0 <= count <= |nodes|
      {
        count := count + 1;
      }
    }
  }

  // ---------------------------------------------------------------------
  // The bounded lifeline stack.

  datatype LifelineType = FiftyFifty | AskFriend | Skip

  function LifelineName(l: LifelineType): string
  {
    match l
    case FiftyFifty => "50-50"
    case AskFriend => "Ask a Friend"
    case Skip => "Skip"
  }

  /** The three lifelines have three different names, none of them the "Unknown" fallback. */
  lemma LifelineNamesDistinct(a: LifelineType, b: LifelineType)
    ensures LifelineName(a) == LifelineName(b) <==> a == b
    ensures LifelineName(a) != "Unknown"
  {
  }

  /** `stack.size() < max_size` compares with the `int` bound converted to a 64-bit size: a negative bound never stops a push. */
  function Capacity(maxSize: int): nat
    requires -0x8000_0000 <= maxSize < 0x8000_0000
  {
    if maxSize < 0 then maxSize + 0x1_0000_0000_0000_0000 else maxSize
  }

  /** `myStack`: a vector used as a stack, with a bound on pushes; the last element is the top. */
  class MyStack<T> {
    var items: seq<T>
    const maxSize: int

    ghost predicate Valid()
    {
      -0x8000_0000 <= maxSize < 0x8000_0000
    }

    /** `size` is a 32-bit `int`. */
    constructor (size: int)
      requires -0x8000_0000 <= size < 0x8000_0000
      ensures Valid()
      ensures items == [] && maxSize == size
    {
      items := [];
      maxSize := size;
    }

    /** A push onto a full stack is dropped. */
    method Push(value: T)
      requires Valid()
      modifies this`items
      ensures |old(items)| < Capacity(maxSize) ==> items == old(items) + [value]
      ensures |old(items)| >= Capacity(maxSize) ==> items == old(items)
    {
      if |items| < Capacity(maxSize) {
        items := items + [value];
      }
    }

    /** The top element, removed; `None` stands for the `out_of_range` thrown on an empty stack. */
    method Pop() returns (top: Option<T>)
      modifies this`items
      ensures old(items) == [] ==> top == None && items == []
      ensures old(items) != [] ==> top == Some(old(items)[|old(items)| - 1]) && items == old(items)[..|old(items)| - 1]
    {
      if items != [] {
        top := Some(items[|items| - 1]);
        items := items[..|items| - 1];
        return;
      }
      return None;
    }

    /** The top element, left in place; `None` on an empty stack. */
    method Peek() returns (top: Option<T>)
      ensures items == [] ==> top == None
      ensures items != [] ==> top == Some(items[|items| - 1])
    {
      if items != [] {
        return Some(items[|items| - 1]);
      }
      return None;
    }

    predicate IsEmpty()
      reads this
    {
      items == []
    }
  }

  /**
   * The lifelines of a game: a stack of three receives Skip, Ask a Friend
   * and 50-50 in that order, so they are consumed 50-50 first, then Ask a
   * Friend, then Skip, and after that none is left.
   */
  method LifelineConsumption() returns (first: Option<LifelineType>, second: Option<LifelineType>,
                                        third: Option<LifelineType>, fourth: Option<LifelineType>)
    ensures first == Some(FiftyFifty) && second == Some(AskFriend) && third == Some(Skip)
    ensures fourth == None
  {
    var lifelines := new MyStack<LifelineType>(3);
    lifelines.Push(Skip);
    lifelines.Push(AskFriend);
    lifelines.Push(FiftyFifty);
    first := lifelines.Pop();
    second := lifelines.Pop();
    third := lifelines.Pop();
    fourth := lifelines.Pop();
  }
}
