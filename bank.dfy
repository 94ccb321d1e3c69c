/**
 * The question bank: loading `|`-separated records, the option shuffle of
 * the GUI build, the question-list shuffle, first-unasked selection, answer
 * lookup, and the category table.
 *
 * Three builds differ in two switches: the GUI bank (src/question_bank.cpp)
 * shuffles each question's options and files ids by category; the root
 * bank (question_bank.cpp) files ids by category without shuffling options;
 * the header bank (question_bank.h) does neither.
 */
module QuestionBanks {
  import opened Wrappers
  import opened Text
  import opened Questions
  import Shuffles
  import GameLogics

  datatype BankKind = GuiBank | HeaderBank | RootBank

  predicate ShufflesOptions(kind: BankKind) { kind == GuiBank }
  predicate HasCategories(kind: BankKind) { kind != HeaderBank }

  /** Position of the first `x` in `s`, or `|s|` when absent. */
  function Find<T(==)>(s: seq<T>, x: T): (k: nat)
    ensures k <= |s|
    ensures k < |s| ==> s[k] == x
    ensures forall i :: 0 <= i < k ==> s[i] != x
    ensures x in s ==> k < |s|
  {
    if |s| == 0 then 0 else if s[0] == x then 0 else 1 + Find(s[1..], x)
  }

  // ---------------------------------------------------------------------
  // Records.

  /** A line the loader turns into a question: not empty and at least nine tokens. */
  predicate Kept(line: string)
  {
    line != [] && |Tokens(line, '|')| >= 9
  }

  /**
   * The numeric tokens of a kept line are numbers and the original correct
   * index names one of the four options; `stoi` would throw, and the option
   * lookup would read out of bounds, otherwise.
   */
  predicate WellFormedRecord(t: seq<string>)
  {
    |t| >= 9 && ParseInt(t[0]).Some? && ParseInt(t[1]).Some? && ParseInt(t[7]).Some?
    && 0 <= ParseInt(t[7]).value < 4
  }

  predicate LineOk(line: string)
  {
    Kept(line) ==> WellFormedRecord(Tokens(line, '|'))
  }

  predicate FileOk(text: string)
  {
    forall k :: 0 <= k < |Tokens(text, '\n')| ==> LineOk(Tokens(text, '\n')[k])
  }

  /** The question a well-formed record becomes; `rnd` drives the option shuffle of the GUI bank. */
  function Record(kind: BankKind, t: seq<string>, rnd: nat -> nat): (q: Question)
    requires WellFormedRecord(t)
  {
    var raw := [t[3], t[4], t[5], t[6]];
    var orig := ParseInt(t[7]).value;
    var options := if ShufflesOptions(kind) then Shuffles.FisherYates(raw, rnd) else raw;
    var correct := if ShufflesOptions(kind) then Find(options, raw[orig]) else orig;
    Question(ParseInt(t[0]).value, ParseInt(t[1]).value, t[2], options, correct, t[8])
  }

  /**
   * Every build maps tokens 0, 1, 2 and 8 to id, category, text and hint,
   * keeps the four options as a permutation of tokens 3..6, and points the
   * correct index at the option that was at the original index, choosing the
   * first equal position; without the shuffle the options stay in file order.
   */
  lemma RecordFields(kind: BankKind, t: seq<string>, rnd: nat -> nat)
    requires WellFormedRecord(t)
    ensures var q := Record(kind, t, rnd);
      var raw := [t[3], t[4], t[5], t[6]];
      var orig := ParseInt(t[7]).value;
      && Some(q.id) == ParseInt(t[0]) && Some(q.category) == ParseInt(t[1])
      && q.text == t[2] && q.hint == t[8]
      && |q.options| == 4 && multiset(q.options) == multiset(raw)
      && 0 <= q.correctAnswerIndex < 4
      && q.options[q.correctAnswerIndex] == raw[orig]
      && (ShufflesOptions(kind) ==> forall i :: 0 <= i < q.correctAnswerIndex ==> q.options[i] != raw[orig])
      && (!ShufflesOptions(kind) ==> q.options == raw && q.correctAnswerIndex == orig)
  {
    var q := Record(kind, t, rnd);
    var raw := [t[3], t[4], t[5], t[6]];
    var orig := ParseInt(t[7]).value;
    assert q.id == ParseInt(t[0]).value && q.category == ParseInt(t[1]).value;
    if ShufflesOptions(kind) {
      var options := Shuffles.FisherYates(raw, rnd);
      Shuffles.FisherYatesPermutes(raw, rnd);
      assert q.options == options && q.correctAnswerIndex == Find(options, raw[orig]);
      assert raw[orig] in multiset(options);
      assert raw[orig] in options;
    } else {
      assert q.options == raw && q.correctAnswerIndex == orig;
    }
  }

  /** The questions the kept lines among `lines` become, in file order; line k shuffles with `rnd(k)`. */
  function Parsed(kind: BankKind, lines: seq<string>, rnd: nat -> nat -> nat): seq<Question>
    requires forall k :: 0 <= k < |lines| ==> LineOk(lines[k])
  {
    if |lines| == 0 then []
    else
      var n := |lines| - 1;
      assert LineOk(lines[n]);
      Parsed(kind, lines[..n], rnd)
      + (if Kept(lines[n]) then [Record(kind, Tokens(lines[n], '|'), rnd(n))] else [])
  }

  lemma ParsedStep(kind: BankKind, lines: seq<string>, i: nat, rnd: nat -> nat -> nat)
    requires i < |lines| && forall k :: 0 <= k < |lines| ==> LineOk(lines[k])
    ensures Kept(lines[i]) ==> WellFormedRecord(Tokens(lines[i], '|'))
    ensures Parsed(kind, lines[..i + 1], rnd)
      == Parsed(kind, lines[..i], rnd)
         + (if Kept(lines[i]) then [Record(kind, Tokens(lines[i], '|'), rnd(i))] else [])
  {
    assert LineOk(lines[i]);
    assert lines[..i + 1][..i] == lines[..i];
  }

  /** The correct option's text, as `answers[q.id]` stores it. */
  function AnswerText(q: Question): string
  {
    if 0 <= q.correctAnswerIndex < |q.options| then q.options[q.correctAnswerIndex] else ""
  }

  /** `answers` after storing the questions in order; a later id overwrites an earlier one. */
  function StoreAnswers(answers: map<int, string>, qs: seq<Question>): map<int, string>
  {
    if |qs| == 0 then answers
    else StoreAnswers(answers, qs[..|qs| - 1])[qs[|qs| - 1].id := AnswerText(qs[|qs| - 1])]
  }

  lemma {:induction false} StoreAnswersAppend(answers: map<int, string>, p: seq<Question>, x: seq<Question>)
    ensures StoreAnswers(answers, p + x) == StoreAnswers(StoreAnswers(answers, p), x)
    decreases |x|
  {
    if x == [] {
      assert p + x == p;
    } else {
      assert (p + x)[..|p + x| - 1] == p + x[..|x| - 1];
      StoreAnswersAppend(answers, p, x[..|x| - 1]);
    }
  }

  lemma {:induction false} FileCategoriesAppend(m: map<int, seq<int>>, p: seq<Question>, x: seq<Question>)
    ensures FileCategories(m, p + x) == FileCategories(FileCategories(m, p), x)
    decreases |x|
  {
    if x == [] {
      assert p + x == p;
    } else {
      assert (p + x)[..|p + x| - 1] == p + x[..|x| - 1];
      FileCategoriesAppend(m, p, x[..|x| - 1]);
    }
  }

  /** The ids of `qs` in category `c`, in order. */
  function IdsInCategory(qs: seq<Question>, c: int): seq<int>
  {
    if |qs| == 0 then []
    else IdsInCategory(qs[..|qs| - 1], c) + (if qs[|qs| - 1].category == c then [qs[|qs| - 1].id] else [])
  }

  function Lookup(m: map<int, seq<int>>, c: int): seq<int>
  {
    if c in m then m[c] else []
  }

  /** The category map after filing every question under its category. */
  function FileCategories(m: map<int, seq<int>>, qs: seq<Question>): map<int, seq<int>>
  {
    if |qs| == 0 then m
    else
      var m' := FileCategories(m, qs[..|qs| - 1]);
      var q := qs[|qs| - 1];
      m'[q.category := Lookup(m', q.category) + [q.id]]
  }

  /** Filing appends, for every category, exactly the ids of that category in load order. */
  lemma {:induction false} FileCategoriesLookup(m: map<int, seq<int>>, qs: seq<Question>, c: int)
    ensures Lookup(FileCategories(m, qs), c) == Lookup(m, c) + IdsInCategory(qs, c)
  {
    if qs != [] {
      FileCategoriesLookup(m, qs[..|qs| - 1], c);
    }
  }

  /** Every id loaded is a key of `answers`, mapped to the correct text of the last question loaded with it. */
  lemma {:induction false} StoreAnswersLast(answers: map<int, string>, qs: seq<Question>, k: nat)
    requires k < |qs|
    requires forall j :: k < j < |qs| ==> qs[j].id != qs[k].id
    ensures qs[k].id in StoreAnswers(answers, qs)
    ensures StoreAnswers(answers, qs)[qs[k].id] == AnswerText(qs[k])
  {
    if k < |qs| - 1 {
      StoreAnswersLast(answers, qs[..|qs| - 1], k);
    }
  }

  /** The ids of the questions in `qs`. */
  function Ids(qs: seq<Question>): set<int>
  {
    set q | q in qs :: q.id
  }

  /** Storing answers adds a key for every stored question's id and no other key. */
  lemma {:induction false} StoreAnswersKeys(answers: map<int, string>, qs: seq<Question>)
    ensures StoreAnswers(answers, qs).Keys == answers.Keys + Ids(qs)
  {
    if |qs| > 0 {
      var n := |qs| - 1;
      StoreAnswersKeys(answers, qs[..n]);
      assert qs == qs[..n] + [qs[n]];
      assert Ids(qs) == Ids(qs[..n]) + {qs[n].id} by {
        forall q ensures q in qs <==> q in qs[..n] || q == qs[n] {
          if q in qs { var k :| 0 <= k < |qs| && qs[k] == q; if k < n { assert qs[..n][k] == q; } }
        }
      }
    }
  }

  /** Ids of an append are the ids of both parts; a permutation has the same ids. */
  lemma IdsAppendPermute(a: seq<Question>, b: seq<Question>, c: seq<Question>)
    requires multiset(c) == multiset(a + b)
    ensures Ids(c) == Ids(a) + Ids(b)
  {
    forall q ensures q in c <==> q in a || q in b {
      calc {
        q in c;
        q in multiset(c);
        q in multiset(a) + multiset(b);
        q in a || q in b;
      }
    }
  }

  /** The first question whose id has not been asked, or the sentinel. */
  function FirstUnasked(qs: seq<Question>, asked: map<int, bool>): (q: Question)
    ensures q == NoMoreQuestions || q in qs
  {
    if |qs| == 0 then NoMoreQuestions
    else if qs[0].id !in asked then qs[0]
    else FirstUnasked(qs[1..], asked)
  }

  /** FirstUnasked finds exactly the earliest unasked question, and the sentinel only when there is none. */
  lemma {:induction false} FirstUnaskedIsFirst(qs: seq<Question>, asked: map<int, bool>)
    ensures (forall i :: 0 <= i < |qs| ==> qs[i].id in asked) ==> FirstUnasked(qs, asked) == NoMoreQuestions
    ensures forall k :: (0 <= k < |qs| && qs[k].id !in asked && (forall i :: 0 <= i < k ==> qs[i].id in asked)
                         ==> FirstUnasked(qs, asked) == qs[k])
  {
    if qs != [] {
      FirstUnaskedIsFirst(qs[1..], asked);
      forall k | 0 <= k < |qs| && qs[k].id !in asked && (forall i :: 0 <= i < k ==> qs[i].id in asked)
        ensures FirstUnasked(qs, asked) == qs[k]
      {
        if k > 0 {
          assert forall i :: 0 <= i < k - 1 ==> qs[1..][i].id in asked by {
            forall i | 0 <= i < k - 1 ensures qs[1..][i].id in asked { assert qs[1..][i] == qs[i + 1]; }
          }
          assert qs[1..][k - 1] == qs[k];
        }
      }
      if forall i :: 0 <= i < |qs| ==> qs[i].id in asked {
        assert forall i :: 0 <= i < |qs| - 1 ==> qs[1..][i].id in asked by {
          forall i | 0 <= i < |qs| - 1 ensures qs[1..][i].id in asked { assert qs[1..][i] == qs[i + 1]; }
        }
      }
    }
  }

  /** The first question carrying `id`, if any. */
  function FindById(qs: seq<Question>, id: int): (r: Option<Question>)
    ensures r.Some? ==> r.value in qs && r.value.id == id
    ensures r.Some? ==> exists k :: 0 <= k < |qs| && qs[k] == r.value && forall i :: 0 <= i < k ==> qs[i].id != id
    ensures r.None? <==> forall i :: 0 <= i < |qs| ==> qs[i].id != id
  {
    if |qs| == 0 then None
    else if qs[0].id == id then Some(qs[0])
    else
      var r := FindById(qs[1..], id);
      assert r.Some? ==> exists k :: 0 <= k < |qs| && qs[k] == r.value && forall i :: 0 <= i < k ==> qs[i].id != id by {
        if r.Some? {
          var k' :| 0 <= k' < |qs[1..]| && qs[1..][k'] == r.value && forall i :: 0 <= i < k' ==> qs[1..][i].id != id;
          assert qs[k' + 1] == r.value;
          assert forall i :: 0 <= i < k' + 1 ==> qs[i].id != id by {
            forall i | 0 <= i < k' + 1 ensures qs[i].id != id {
              if i > 0 { assert qs[i] == qs[1..][i - 1]; }
            }
          }
        }
      }
      r
  }

  /** `isCorrectAnswer` and GameLogic's `validateAnswer` agree on the question the bank finds for an id. */
  lemma CorrectAnswerAgrees(qs: seq<Question>, q: Question, option: int)
    requires FindById(qs, q.id) == Some(q)
    ensures (FindById(qs, q.id).Some? && FindById(qs, q.id).value.correctAnswerIndex == option)
      == GameLogics.ValidateAnswer(q, option)
  {
  }

  function GetCategoryName(categoryId: int): (name: string)
  {
    match categoryId
    case 0 => "ADT & Data Structures"
    case 1 => "Linked Lists"
    case 2 => "Stacks & Queues"
    case 3 => "Trees"
    case 4 => "Graphs"
    case 5 => "Hashing / Advanced Topics"
    case _ => "Unknown"
  }

  /** The six categories have six different names, none of them "Unknown", which every other id gets. */
  lemma CategoryNamesDistinct(a: int, b: int)
    ensures (GetCategoryName(a) == "Unknown") <==> !(0 <= a <= 5)
    ensures 0 <= a <= 5 && 0 <= b <= 5 && a != b ==> GetCategoryName(a) != GetCategoryName(b)
  {
  }

  // ---------------------------------------------------------------------
  // The objects.

  class CategoryNetwork {
    var categoryMap: map<int, seq<int>>

    constructor ()
      ensures categoryMap == map[]
    {
      categoryMap := map[];
    }

    method AddQuestionToCategory(categoryId: int, questionId: int)
      modifies `categoryMap
      ensures categoryMap == old(categoryMap)[categoryId := Lookup(old(categoryMap), categoryId) + [questionId]]
      ensures GetQuestionsForCategory(categoryId) == old(GetQuestionsForCategory(categoryId)) + [questionId]
      ensures forall c :: c != categoryId ==> GetQuestionsForCategory(c) == old(GetQuestionsForCategory(c))
    {
      categoryMap := categoryMap[categoryId := Lookup(categoryMap, categoryId) + [questionId]];
    }

    /** The ids added for a category in insertion order, empty for a category never seen. */
    function GetQuestionsForCategory(categoryId: int): seq<int>
      reads this
    {
      Lookup(categoryMap, categoryId)
    }
  }

  class QuestionBank {
    const kind: BankKind
    var questions: seq<Question>
    var answers: map<int, string>
    const categoryNetwork: CategoryNetwork

    /** The answer map has a key exactly for the id of every question in the bank. */
    ghost predicate AnswersIndexed()
      reads this
    {
      answers.Keys == Ids(questions)
    }

    constructor (kind: BankKind)
      ensures this.kind == kind && questions == [] && answers == map[]
      ensures AnswersIndexed()
      ensures fresh(categoryNetwork) && categoryNetwork.categoryMap == map[]
    {
      this.kind := kind;
      questions, answers := [], map[];
      categoryNetwork := new CategoryNetwork();
    }

    /** One kept line, already split: the fields, the option shuffle and the search for the correct option. */
    method ParseRecord(tokens: seq<string>, rnd: nat -> nat) returns (q: Question)
      requires WellFormedRecord(tokens)
      ensures q == Record(kind, tokens, rnd)
    {
      var id := ParseInt(tokens[0]).value;
      var category := ParseInt(tokens[1]).value;
      var rawOptions := [tokens[3], tokens[4], tokens[5], tokens[6]];
      var originalCorrectIndex := ParseInt(tokens[7]).value;
      if ShufflesOptions(kind) {
        var correctAnswer := rawOptions[originalCorrectIndex];
        var options := Shuffles.Shuffle(rawOptions, rnd);
        assert correctAnswer in multiset(options);
        var correct := FindCorrect(options, correctAnswer);
        q := Question(id, category, tokens[2], options, correct, tokens[8]);
      } else {
        q := Question(id, category, tokens[2], rawOptions, originalCorrectIndex, tokens[8]);
      }
    }

    /** The scan for the option equal to the original correct answer; it stops at the first match. */
    static method FindCorrect(options: seq<string>, correctAnswer: string) returns (correct: int)
      requires |options| == 4 && correctAnswer in options
      ensures correct == Find(options, correctAnswer)
    {
      correct := 0;
      var i := 0;
      while i < 4
        invariant 0 <= i <= 4
        invariant forall j :: 0 <= j < i ==> options[j] != correctAnswer
        invariant i <= Find(options, correctAnswer)
      {
        if options[i] == correctAnswer {
          correct := i;
          break;
        }
        i := i + 1;
      }
    }

    /** One line of the file: skipped, or parsed and appended with its answer and category. */
    method LoadLine(line: string, rnd: nat -> nat)
      requires LineOk(line)
      modifies `questions, `answers, categoryNetwork`categoryMap
      ensures var added := if Kept(line) then [Record(kind, Tokens(line, '|'), rnd)] else [];
        && questions == old(questions) + added
        && answers == StoreAnswers(old(answers), added)
        && categoryNetwork.categoryMap
           == (if HasCategories(kind) then FileCategories(old(categoryNetwork.categoryMap), added)
               else old(categoryNetwork.categoryMap))
    {
      if line == [] {
        return;
      }
      var tokens := ReadTokens(line, '|');
      if |tokens| < 9 {
        return;
      }
      var q := ParseRecord(tokens, rnd);
      assert [q][..0] == [];
      questions := questions + [q];
      answers := answers[q.id := AnswerText(q)];
      if HasCategories(kind) {
        categoryNetwork.AddQuestionToCategory(q.category, q.id);
      }
    }

    /**
     * `file` is the file's contents, or None when it cannot be opened. The
     * kept records are appended in file order, their answers stored and
     * their ids filed, and then the whole list is shuffled with `qRand`.
     */
    method LoadFromFile(file: Option<string>, optRand: nat -> nat -> nat, qRand: nat -> nat) returns (ok: bool)
      requires file.Some? ==> FileOk(file.value)
      modifies `questions, `answers, categoryNetwork`categoryMap
      ensures ok <==> file.Some?
      ensures !ok ==>
        (questions == old(questions) && answers == old(answers)
         && categoryNetwork.categoryMap == old(categoryNetwork.categoryMap))
      ensures ok ==>
        var added := Parsed(kind, Tokens(file.value, '\n'), optRand);
        && questions == Shuffles.FisherYates(old(questions) + added, qRand)
        && answers == StoreAnswers(old(answers), added)
        && categoryNetwork.categoryMap
           == (if HasCategories(kind) then FileCategories(old(categoryNetwork.categoryMap), added)
               else old(categoryNetwork.categoryMap))
      ensures old(AnswersIndexed()) ==> AnswersIndexed()
    {
      if file.None? {
        return false;
      }
      var lines := ReadTokens(file.value, '\n');
      ghost var old0 := questions;
      ghost var ans0 := answers;
      ghost var cat0 := categoryNetwork.categoryMap;
      ghost var done: seq<Question> := [];
      var i := 0;
      while i < |lines|
        invariant 0 <= i <= |lines|
        invariant done == Parsed(kind, lines[..i], optRand)
        invariant questions == old0 + done
        invariant answers == StoreAnswers(ans0, done)
        invariant categoryNetwork.categoryMap == (if HasCategories(kind) then FileCategories(cat0, done) else cat0)
      {
        ParsedStep(kind, lines, i, optRand);
        ghost var added := if Kept(lines[i]) then [Record(kind, Tokens(lines[i], '|'), optRand(i))] else [];
        LoadLine(lines[i], optRand(i));
        Assoc(old0, done, added);
        StoreAnswersAppend(ans0, done, added);
        FileCategoriesAppend(cat0, done, added);
        done := done + added;
        i := i + 1;
      }
      assert lines[..|lines|] == lines;
      ShuffleQuestions(qRand);
      StoreAnswersKeys(ans0, done);
      IdsAppendPermute(old0, done, questions);
      return true;
    }

    method ShuffleQuestions(rand: nat -> nat)
      modifies this`questions
      ensures questions == Shuffles.FisherYates(old(questions), rand)
      ensures multiset(questions) == multiset(old(questions))
      ensures old(AnswersIndexed()) ==> AnswersIndexed()
    {
      questions := Shuffles.Shuffle(questions, rand);
      assert old(questions) + [] == old(questions);
      IdsAppendPermute(old(questions), [], questions);
    }

    /** Reads only: the first question the player has not been asked, or the id -1 sentinel. */
    method GetNextQuestion(asked: map<int, bool>) returns (q: Question)
      ensures q == FirstUnasked(questions, asked)
      ensures q == NoMoreQuestions || (q in questions && q.id !in asked)
      ensures (forall i :: 0 <= i < |questions| ==> questions[i].id in asked) ==> q == NoMoreQuestions
    {
      FirstUnaskedIsFirst(questions, asked);
      var i := 0;
      while i < |questions|
        invariant 0 <= i <= |questions|
        invariant forall j :: 0 <= j < i ==> questions[j].id in asked
      {
        if questions[i].id !in asked {
          return questions[i];
        }
        i := i + 1;
      }
      return NoMoreQuestions;
    }

    /** Reads only: compares with the correct index of the first question carrying the id. */
    method IsCorrectAnswer(questionId: int, optionIndex: int) returns (r: bool)
      ensures r <==> FindById(questions, questionId).Some?
                     && FindById(questions, questionId).value.correctAnswerIndex == optionIndex
      ensures (forall i :: 0 <= i < |questions| ==> questions[i].id != questionId) ==> !r
    {
      if questions == [] {
        return false;
      }
      var i := 0;
      while i < |questions|
        invariant 0 <= i <= |questions|
        invariant FindById(questions, questionId) == FindById(questions[i..], questionId)
      {
        if questions[i].id == questionId {
          return questions[i].correctAnswerIndex == optionIndex;
        }
        assert questions[i..][1..] == questions[i + 1..];
        i := i + 1;
      }
      return false;
    }

    /** `answers.at(id)`: None stands for the `out_of_range` thrown for an unknown id. */
    function GetCorrectAnswer(questionId: int): (r: Option<string>)
      reads this
      ensures r.Some? <==> questionId in answers
      ensures r.Some? ==> r.value == answers[questionId]
      ensures AnswersIndexed() ==> (r.Some? <==> exists k :: 0 <= k < |questions| && questions[k].id == questionId)
    {
      if questionId in answers then Some(answers[questionId]) else None
    }

    function GetTotalQuestions(): nat
      reads this
    {
      |questions|
    }
  }
}
