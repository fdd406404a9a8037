/** The relational store behind `ApplicationDbContext` (Quizzes, Questions, Answers), seen as a map
    from quiz id to the quiz row with the question rows it owns, each owning its answer rows.
    The foreign keys Questions.QuizId and Answers.QuestionId cascade on delete
    (QuizConfiguration.cs, QuestionConfiguration.cs): in this shape a child cannot outlive its
    parent, and the flat `QuestionTable` and `AnswerTable` views below show the cascade explicitly. */
module Store {
  import opened Wrappers
  import opened Entities
  import opened Validation
  import opened QuestionsMapper

  // ---------------------------------------------------------------------------------------------
  // Question lists of one quiz

  function IdSet(qs: seq<Question>): set<int>
  {
    set q | q in qs :: q.id
  }

  /** No two questions of the list share an id. */
  predicate DistinctIds(qs: seq<Question>)
  {
    qs == [] || (qs[0].id !in IdSet(qs[1..]) && DistinctIds(qs[1..]))
  }

  /** The list with every question of that id removed; the others keep their order. */
  function WithoutQuestion(qs: seq<Question>, id: int): (r: seq<Question>)
    ensures forall q :: q in r <==> q in qs && q.id != id
    ensures IdSet(r) == IdSet(qs) - {id}
    ensures DistinctIds(qs) ==> DistinctIds(r)
  {
    if qs == [] then []
    else if qs[0].id == id then WithoutQuestion(qs[1..], id)
    else
      var rest := WithoutQuestion(qs[1..], id);
      assert qs == [qs[0]] + qs[1..];
      assert ([qs[0]] + rest)[1..] == rest;
      [qs[0]] + rest
  }

  /** The list with the text and answers of every question of that id replaced. */
  function Replacing(qs: seq<Question>, id: int, text: string, answers: seq<Answer>): (r: seq<Question>)
    ensures |r| == |qs|
    ensures forall i :: 0 <= i < |qs| ==>
              r[i] == if qs[i].id == id then Question(id, text, answers) else qs[i]
    ensures IdSet(r) == IdSet(qs)
    ensures DistinctIds(qs) ==> DistinctIds(r)
  {
    if qs == [] then []
    else
      var head := if qs[0].id == id then Question(id, text, answers) else qs[0];
      var rest := Replacing(qs[1..], id, text, answers);
      assert ([head] + rest)[1..] == rest;
      assert forall i :: 1 <= i < |qs| ==> qs[i] == qs[1..][i - 1];
      assert IdSet([head] + rest) == {head.id} + IdSet(rest) by {
        assert forall q :: q in [head] + rest <==> q == head || q in rest;
      }
      assert IdSet(qs) == {qs[0].id} + IdSet(qs[1..]) by {
        assert forall q :: q in qs <==> q == qs[0] || q in qs[1..];
      }
      [head] + rest
  }

  /** The question rows a create stores: the mapper's drafts, in order, under the consecutive ids
      the identity column hands out from `first` on. */
  function AssignIds(drafts: seq<QuestionDraft>, first: int): (qs: seq<Question>)
    ensures |qs| == |drafts|
    ensures forall i :: 0 <= i < |qs| ==>
              qs[i].text == drafts[i].text && qs[i].answers == drafts[i].answers
    ensures forall q :: q in qs ==> first <= q.id < first + |drafts|
    ensures DistinctIds(qs)
  {
    if drafts == [] then []
    else
      var rest := AssignIds(drafts[1..], first + 1);
      assert ([Question(first, drafts[0].text, drafts[0].answers)] + rest)[1..] == rest;
      [Question(first, drafts[0].text, drafts[0].answers)] + rest
  }

  lemma {:induction false} WithoutAbsent(qs: seq<Question>, id: int)
    requires id !in IdSet(qs)
    ensures WithoutQuestion(qs, id) == qs
  {
    if qs != [] {
      assert qs[0] in qs;
      assert IdSet(qs[1..]) <= IdSet(qs) by {
        forall x | x in IdSet(qs[1..]) ensures x in IdSet(qs) {
          var q :| q in qs[1..] && q.id == x;
          assert q in qs;
        }
      }
      WithoutAbsent(qs[1..], id);
      assert qs == [qs[0]] + qs[1..];
    }
  }

  /** With distinct ids, removing "every question with the id of question i" removes exactly
      position i, which is what `Questions.Remove(question)` does. */
  lemma {:induction false} WithoutAt(qs: seq<Question>, i: int)
    requires DistinctIds(qs) && 0 <= i < |qs|
    ensures WithoutQuestion(qs, qs[i].id) == qs[..i] + qs[i + 1..]
  {
    var id := qs[i].id;
    if i == 0 {
      WithoutAbsent(qs[1..], id);
      assert qs[..0] + qs[1..] == qs[1..];
    } else {
      var tail := qs[1..];
      assert qs[i] == tail[i - 1];
      DistinctAt(qs, 0, i);
      assert WithoutQuestion(qs, id) == [qs[0]] + WithoutQuestion(tail, id);
      WithoutAt(tail, i - 1);
      calc {
        [qs[0]] + WithoutQuestion(tail, id);
        [qs[0]] + (tail[..i - 1] + tail[i..]);
        { assert qs[..i] == [qs[0]] + tail[..i - 1]; assert qs[i + 1..] == tail[i..]; }
        qs[..i] + qs[i + 1..];
      }
    }
  }

  lemma {:induction false} ReplacingAt(qs: seq<Question>, i: int, text: string, answers: seq<Answer>)
    requires DistinctIds(qs) && 0 <= i < |qs|
    ensures Replacing(qs, qs[i].id, text, answers) == qs[i := Question(qs[i].id, text, answers)]
  {
    var r := Replacing(qs, qs[i].id, text, answers);
    forall j | 0 <= j < |qs| && j != i ensures qs[j].id != qs[i].id {
      DistinctAt(qs, j, i);
    }
  }

  lemma {:induction false} DistinctAt(qs: seq<Question>, i: int, j: int)
    requires DistinctIds(qs) && 0 <= i < |qs| && 0 <= j < |qs| && i != j
    ensures qs[i].id != qs[j].id
  {
    if i == 0 {
      assert qs[j] == qs[1..][j - 1];
      assert qs[j] in qs[1..];
    } else if j == 0 {
      assert qs[i] == qs[1..][i - 1];
      assert qs[i] in qs[1..];
    } else {
      DistinctAt(qs[1..], i - 1, j - 1);
    }
  }

  lemma {:induction false} ReplacingAbsent(qs: seq<Question>, id: int, text: string, answers: seq<Answer>)
    requires id !in IdSet(qs)
    ensures Replacing(qs, id, text, answers) == qs
  {
    var r := Replacing(qs, id, text, answers);
    forall j | 0 <= j < |qs| ensures r[j] == qs[j] {
      assert qs[j] in qs;
    }
  }

  // ---------------------------------------------------------------------------------------------
  // The whole store

  /** A quiz as the validators let it in: non-blank title and topic, 1 to 25 requested questions. */
  predicate WellFormedQuiz(q: Quiz)
  {
    NotEmptyString(q.title) && NotEmptyString(q.topic) && 1 <= q.numberOfQuestions <= 25
  }

  /** The store invariant: identity-column ids are positive and below the next value to hand out,
      question ids are unique across the whole Questions table, and every quiz is well formed. */
  ghost predicate ValidStore(m: map<int, Quiz>, nextQuizId: int, nextQuestionId: int)
  {
    KeysBelow(m, nextQuizId) && IdsBelow(m, nextQuestionId) && QuizzesWellFormed(m) && IdsDisjoint(m)
  }

  ghost predicate KeysBelow(m: map<int, Quiz>, nextQuizId: int)
  {
    forall k :: k in m ==> 0 < k < nextQuizId
  }

  ghost predicate IdsBelow(m: map<int, Quiz>, nextQuestionId: int)
  {
    forall k, q :: k in m && q in m[k].questions ==> 0 < q.id < nextQuestionId
  }

  ghost predicate QuizzesWellFormed(m: map<int, Quiz>)
  {
    forall k :: k in m ==> DistinctIds(m[k].questions) && WellFormedQuiz(m[k])
  }

  ghost predicate IdsDisjoint(m: map<int, Quiz>)
  {
    forall k1, k2 :: k1 in m && k2 in m && k1 != k2 ==> IdSet(m[k1].questions) !! IdSet(m[k2].questions)
  }

  /** Some quiz holds a question with this id (`Questions.FirstOrDefault(q => q.Id == id)` and
      `Quizzes.FirstOrDefault(q => q.Questions.Any(q => q.Id == id))` are both non-null). */
  predicate QuestionExists(m: map<int, Quiz>, id: int)
    ensures QuestionExists(m, id) <==> id in QuestionIds(m)
  {
    exists k :: k in m && id in IdSet(m[k].questions)
  }

  /** The quiz with this id exists and belongs to this user. */
  predicate OwnedBy(m: map<int, Quiz>, quizId: int, user: UserId)
  {
    quizId in m && m[quizId].userId == user
  }

  /** The flat Questions table: one row per question, with the foreign key of its quiz. */
  datatype QuestionRow = QuestionRow(quizId: int, id: int, text: string)

  /** The flat Answers table: one row per answer, with the foreign key of its question. */
  datatype AnswerRow = AnswerRow(questionId: int, answer: Answer)

  ghost function QuestionTable(m: map<int, Quiz>): set<QuestionRow>
  {
    set k, q | k in m && q in m[k].questions :: QuestionRow(k, q.id, q.text)
  }

  ghost function AnswerTable(m: map<int, Quiz>): set<AnswerRow>
  {
    set k, q, a | k in m && q in m[k].questions && a in q.answers :: AnswerRow(q.id, a)
  }

  ghost function QuestionIds(m: map<int, Quiz>): set<int>
  {
    set k, q | k in m && q in m[k].questions :: q.id
  }

  /** `Questions.Remove(question)` for every question of that id, in every quiz. */
  function RemoveQuestion(m: map<int, Quiz>, id: int): (r: map<int, Quiz>)
    ensures r.Keys == m.Keys
  {
    map k | k in m :: m[k].(questions := WithoutQuestion(m[k].questions, id))
  }

  /** Text and answers of every question of that id replaced. */
  function ReplaceQuestion(m: map<int, Quiz>, id: int, text: string, answers: seq<Answer>): (r: map<int, Quiz>)
    ensures r.Keys == m.Keys
    ensures forall k :: k in r ==> r[k].(questions := []) == m[k].(questions := [])
  {
    map k | k in m :: m[k].(questions := Replacing(m[k].questions, id, text, answers))
  }

  /** `Quizzes.Remove(quiz)`. */
  function RemoveQuiz(m: map<int, Quiz>, quizId: int): (r: map<int, Quiz>)
    ensures r.Keys == m.Keys - {quizId}
    ensures forall k :: k in r ==> r[k] == m[k]
  {
    m - {quizId}
  }

  /** `quiz.Title = title`. */
  function SetTitle(m: map<int, Quiz>, quizId: int, title: string): (r: map<int, Quiz>)
    requires quizId in m
    ensures r.Keys == m.Keys
  {
    m[quizId := m[quizId].(title := title)]
  }

  // ---------------------------------------------------------------------------------------------
  // What the store operations do to the flat tables

  /** Deleting a question removes its row and, by cascade, its answer rows and nothing else; every
      quiz keeps its fields, `NumberOfQuestions` included; afterwards no question has that id. */
  lemma RemoveQuestionEffect(m: map<int, Quiz>, id: int)
    ensures var r := RemoveQuestion(m, id);
            && QuestionTable(r) == set row | row in QuestionTable(m) && row.id != id
            && AnswerTable(r) == set row | row in AnswerTable(m) && row.questionId != id
            && QuestionIds(r) == QuestionIds(m) - {id}
            && !QuestionExists(r, id)
            && forall k :: k in m ==>
                 r[k].(questions := []) == m[k].(questions := [])
                 && r[k].numberOfQuestions == m[k].numberOfQuestions
  {
    var r := RemoveQuestion(m, id);
    forall row | row in QuestionTable(m) && row.id != id ensures row in QuestionTable(r) {
      var k, q :| k in m && q in m[k].questions && row == QuestionRow(k, q.id, q.text);
      assert q in r[k].questions;
    }
    forall row | row in AnswerTable(m) && row.questionId != id ensures row in AnswerTable(r) {
      var k, q, a :| k in m && q in m[k].questions && a in q.answers && row == AnswerRow(q.id, a);
      assert q in r[k].questions;
    }
    forall x | x in QuestionIds(m) - {id} ensures x in QuestionIds(r) {
      var k, q :| k in m && q in m[k].questions && x == q.id;
      assert q in r[k].questions;
    }
  }

  /** Which questions a replacement leaves in one quiz: the others unchanged, and the new
      version of the replaced one exactly when the quiz held it. */
  lemma {:induction false} ReplacingMembers(qs: seq<Question>, id: int, text: string, answers: seq<Answer>)
    ensures forall q :: q in Replacing(qs, id, text, answers) <==>
              (q in qs && q.id != id) || (q == Question(id, text, answers) && id in IdSet(qs))
  {
    var r := Replacing(qs, id, text, answers);
    forall q | q in r
      ensures (q in qs && q.id != id) || (q == Question(id, text, answers) && id in IdSet(qs))
    {
      var i :| 0 <= i < |r| && r[i] == q;
      assert qs[i] in qs;
    }
    forall q | (q in qs && q.id != id) || (q == Question(id, text, answers) && id in IdSet(qs))
      ensures q in r
    {
      if q in qs && q.id != id {
        var i :| 0 <= i < |qs| && qs[i] == q;
        assert r[i] == q;
      } else {
        var p :| p in qs && p.id == id;
        var i :| 0 <= i < |qs| && qs[i] == p;
        assert r[i] == q;
      }
    }
  }

  /** Replacing a question keeps the set of question ids. */
  lemma ReplaceQuestionIds(m: map<int, Quiz>, id: int, text: string, answers: seq<Answer>)
    ensures QuestionIds(ReplaceQuestion(m, id, text, answers)) == QuestionIds(m)
  {
    var r := ReplaceQuestion(m, id, text, answers);
    forall k | k in m ensures IdSet(r[k].questions) == IdSet(m[k].questions) {
      assert r[k].questions == Replacing(m[k].questions, id, text, answers);
    }
    forall x | x in QuestionIds(m) ensures x in QuestionIds(r) {
      var k, q :| k in m && q in m[k].questions && x == q.id;
      assert x in IdSet(r[k].questions);
      var p :| p in r[k].questions && p.id == x;
    }
    forall x | x in QuestionIds(r) ensures x in QuestionIds(m) {
      var k, q :| k in r && q in r[k].questions && x == q.id;
      assert x in IdSet(m[k].questions);
      var p :| p in m[k].questions && p.id == x;
    }
  }

  /** Replacing a question keeps every other row of the Questions table, and the replaced
      question's rows carry the new text. */
  lemma ReplaceQuestionRows(m: map<int, Quiz>, id: int, text: string, answers: seq<Answer>)
    ensures var r := ReplaceQuestion(m, id, text, answers);
            && (set row | row in QuestionTable(r) && row.id != id) == (set row | row in QuestionTable(m) && row.id != id)
            && forall row :: row in QuestionTable(r) && row.id == id ==> row.text == text
  {
    var r := ReplaceQuestion(m, id, text, answers);
    forall k | k in m
      ensures forall q :: q in r[k].questions <==>
                (q in m[k].questions && q.id != id) || (q == Question(id, text, answers) && id in IdSet(m[k].questions))
    {
      ReplacingMembers(m[k].questions, id, text, answers);
    }
  }

  /** Replacing a question keeps every answer row of the other questions, and every answer row
      of the replaced question is one of the new answers. */
  lemma ReplaceAnswerRows(m: map<int, Quiz>, id: int, text: string, answers: seq<Answer>)
    ensures var r := ReplaceQuestion(m, id, text, answers);
            && (set row | row in AnswerTable(r) && row.questionId != id) == (set row | row in AnswerTable(m) && row.questionId != id)
            && forall row :: row in AnswerTable(r) && row.questionId == id ==> row.answer in answers
  {
    var r := ReplaceQuestion(m, id, text, answers);
    forall k | k in m
      ensures forall q :: q in r[k].questions <==>
                (q in m[k].questions && q.id != id) || (q == Question(id, text, answers) && id in IdSet(m[k].questions))
    {
      ReplacingMembers(m[k].questions, id, text, answers);
    }
  }

  /** Deleting a quiz removes its row, its question rows and, by cascade again, their answer rows;
      the rows of every other quiz stay. */
  lemma RemoveQuizCascade(m: map<int, Quiz>, nextQuizId: int, nextQuestionId: int, quizId: int)
    requires ValidStore(m, nextQuizId, nextQuestionId) && quizId in m
    ensures var r := RemoveQuiz(m, quizId);
            && QuestionTable(r) == set row | row in QuestionTable(m) && row.quizId != quizId
            && AnswerTable(r) == set row | row in AnswerTable(m) && row.questionId !in IdSet(m[quizId].questions)
            && QuestionIds(r) == QuestionIds(m) - IdSet(m[quizId].questions)
  {
    var r := RemoveQuiz(m, quizId);
    forall row | row in AnswerTable(r) ensures row.questionId !in IdSet(m[quizId].questions) {
      var k, q, a :| k in r && q in r[k].questions && a in q.answers && row == AnswerRow(q.id, a);
      assert q.id in IdSet(m[k].questions);
    }
    forall x | x in QuestionIds(r) ensures x !in IdSet(m[quizId].questions) {
      var k, q :| k in r && q in r[k].questions && x == q.id;
      assert q.id in IdSet(m[k].questions);
    }
    forall row | row in AnswerTable(m) && row.questionId !in IdSet(m[quizId].questions)
      ensures row in AnswerTable(r)
    {
      var k, q, a :| k in m && q in m[k].questions && a in q.answers && row == AnswerRow(q.id, a);
    }
  }

  /** Setting a title changes that quiz's title and nothing else, and setting it twice is the
      same as setting it once. */
  lemma SetTitleEffect(m: map<int, Quiz>, quizId: int, title: string)
    requires quizId in m
    ensures var r := SetTitle(m, quizId, title);
            && r[quizId].title == title
            && r[quizId].(title := m[quizId].title) == m[quizId]
            && (forall k :: k in m && k != quizId ==> r[k] == m[k])
            && SetTitle(r, quizId, title) == r
  {
  }

  // ---------------------------------------------------------------------------------------------
  // The operations keep the store invariant

  lemma RemoveQuestionKeepsValid(m: map<int, Quiz>, a: int, b: int, id: int)
    requires ValidStore(m, a, b)
    ensures ValidStore(RemoveQuestion(m, id), a, b)
  {
    var r := RemoveQuestion(m, id);
    forall k1, k2 | k1 in r && k2 in r && k1 != k2
      ensures IdSet(r[k1].questions) !! IdSet(r[k2].questions)
    {
      assert IdSet(r[k1].questions) <= IdSet(m[k1].questions);
    }
  }

  lemma ReplaceQuestionKeepsValid(m: map<int, Quiz>, a: int, b: int, id: int, text: string, answers: seq<Answer>)
    requires ValidStore(m, a, b)
    ensures ValidStore(ReplaceQuestion(m, id, text, answers), a, b)
  {
    var r := ReplaceQuestion(m, id, text, answers);
    forall k | k in r
      ensures IdSet(r[k].questions) == IdSet(m[k].questions)
      ensures DistinctIds(r[k].questions) && WellFormedQuiz(r[k])
    {
      assert r[k].questions == Replacing(m[k].questions, id, text, answers);
    }
    forall k, q | k in r && q in r[k].questions ensures 0 < q.id < b {
      assert q.id in IdSet(r[k].questions);
      var p :| p in m[k].questions && p.id == q.id;
    }
  }

  /** Storing a new quiz under a fresh id, with the question ids `AssignIds` hands out from the
      next identity value on, keeps the invariant with both counters advanced. */
  lemma InsertKeepsValid(m: map<int, Quiz>, a: int, b: int, quiz: Quiz, drafts: seq<QuestionDraft>)
    requires ValidStore(m, a, b) && 0 < a && 0 < b
    requires WellFormedQuiz(quiz) && quiz.questions == AssignIds(drafts, b)
    ensures a !in m
    ensures ValidStore(m[a := quiz], a + 1, b + |drafts|)
  {
    var n := |drafts|;
    var qs := quiz.questions;
    assert DistinctIds(qs);
    assert forall q :: q in qs ==> b <= q.id < b + n;
    InsertIds(m, a, b, quiz, n);
  }

  lemma InsertIds(m: map<int, Quiz>, a: int, b: int, quiz: Quiz, n: nat)
    requires ValidStore(m, a, b) && 0 < a && 0 < b
    requires WellFormedQuiz(quiz) && DistinctIds(quiz.questions)
    requires forall q :: q in quiz.questions ==> b <= q.id < b + n
    ensures a !in m
    ensures ValidStore(m[a := quiz], a + 1, b + n)
  {
    var r := m[a := quiz];
    assert KeysBelow(m, a) && IdsBelow(m, b);
    assert KeysBelow(r, a + 1);
    assert IdsBelow(r, b + n) by {
      forall k, q | k in r && q in r[k].questions ensures 0 < q.id < b + n {
        if k == a {
          assert q in quiz.questions;
        } else {
          assert r[k] == m[k];
          assert 0 < q.id < b;
        }
      }
    }
    assert QuizzesWellFormed(r);
    assert IdsDisjoint(r) by {
      forall k | k in m
        ensures IdSet(m[k].questions) !! IdSet(quiz.questions)
      {
        forall x | x in IdSet(m[k].questions) ensures x < b {
          var p :| p in m[k].questions && p.id == x;
        }
        forall x | x in IdSet(quiz.questions) ensures b <= x {
          var p :| p in quiz.questions && p.id == x;
        }
      }
    }
  }

  lemma RemoveQuizKeepsValid(m: map<int, Quiz>, a: int, b: int, quizId: int)
    requires ValidStore(m, a, b)
    ensures ValidStore(RemoveQuiz(m, quizId), a, b)
  {
  }

  lemma SetTitleKeepsValid(m: map<int, Quiz>, a: int, b: int, quizId: int, title: string)
    requires ValidStore(m, a, b) && quizId in m && NotEmptyString(title)
    ensures ValidStore(SetTitle(m, quizId, title), a, b)
  {
  }

  /** With ids unique across the store, editing the question at position (k, i) is the same
      as replacing every question of its id. */
  lemma ReplaceAtPosition(m: map<int, Quiz>, k: int, i: int, text: string, answers: seq<Answer>)
    requires QuizzesWellFormed(m) && IdsDisjoint(m)
    requires k in m && 0 <= i < |m[k].questions|
    ensures var qs := m[k].questions;
            m[k := m[k].(questions := qs[i := Question(qs[i].id, text, answers)])]
              == ReplaceQuestion(m, qs[i].id, text, answers)
  {
    var qs := m[k].questions;
    var id := qs[i].id;
    var r := m[k := m[k].(questions := qs[i := Question(id, text, answers)])];
    var t := ReplaceQuestion(m, id, text, answers);
    assert id in IdSet(qs) by { assert qs[i] in qs; }
    forall k' | k' in m ensures r[k'] == t[k'] {
      if k' == k {
        ReplacingAt(qs, i, text, answers);
      } else {
        assert IdSet(m[k'].questions) !! IdSet(qs);
        ReplacingAbsent(m[k'].questions, id, text, answers);
      }
    }
  }

  /** With ids unique across the store, removing the question at position (k, i) is the same
      as removing every question of its id. */
  lemma RemoveAtPosition(m: map<int, Quiz>, k: int, i: int)
    requires QuizzesWellFormed(m) && IdsDisjoint(m)
    requires k in m && 0 <= i < |m[k].questions|
    ensures var qs := m[k].questions;
            m[k := m[k].(questions := qs[..i] + qs[i + 1..])] == RemoveQuestion(m, qs[i].id)
  {
    var qs := m[k].questions;
    var id := qs[i].id;
    var r := m[k := m[k].(questions := qs[..i] + qs[i + 1..])];
    var t := RemoveQuestion(m, id);
    assert id in IdSet(qs) by { assert qs[i] in qs; }
    forall k' | k' in m ensures r[k'] == t[k'] {
      if k' == k {
        WithoutAt(qs, i);
      } else {
        assert IdSet(m[k'].questions) !! IdSet(qs);
        WithoutAbsent(m[k'].questions, id);
      }
    }
  }

  /** The committed contents of the database together with its two identity counters; the
      handlers are specified as functions from one snapshot to the next. */
  datatype Snapshot = Snapshot(quizzes: map<int, Quiz>, nextQuizId: int, nextQuestionId: int)

  /** The database after storing `quiz` with the drafts as its questions: the quiz under the next
      quiz id, the drafts under the next question ids, both counters advanced. */
  function Inserted(s: Snapshot, quiz: Quiz, drafts: seq<QuestionDraft>): (r: Snapshot)
    ensures r.quizzes.Keys == s.quizzes.Keys + {s.nextQuizId}
    ensures forall k :: k in s.quizzes && k != s.nextQuizId ==> r.quizzes[k] == s.quizzes[k]
    ensures r.quizzes[s.nextQuizId].(questions := []) == quiz.(questions := [])
    ensures |r.quizzes[s.nextQuizId].questions| == |drafts|
    ensures r.nextQuizId == s.nextQuizId + 1 && r.nextQuestionId == s.nextQuestionId + |drafts|
  {
    Snapshot(s.quizzes[s.nextQuizId := quiz.(questions := AssignIds(drafts, s.nextQuestionId))],
             s.nextQuizId + 1, s.nextQuestionId + |drafts|)
  }

  ghost predicate ValidSnapshot(s: Snapshot)
  {
    ValidStore(s.quizzes, s.nextQuizId, s.nextQuestionId) && 0 < s.nextQuizId && 0 < s.nextQuestionId
  }

  // ---------------------------------------------------------------------------------------------
  // The database context

  /** The tracked database: every handler reads it and commits its change with one
      `SaveChangesAsync`, so each method below is one atomic commit. */
  class QuizStore {
    var quizzes: map<int, Quiz>
    /** The next values the identity columns of Quizzes and Questions hand out. */
    var nextQuizId: int
    var nextQuestionId: int

    ghost predicate Valid()
      reads this
    {
      ValidSnapshot(State())
    }

    /** The committed contents of the database. */
    function State(): Snapshot
      reads this
    {
      Snapshot(quizzes, nextQuizId, nextQuestionId)
    }

    /** An empty database; identity columns start at 1. */
    constructor ()
      ensures Valid() && quizzes == map[] && nextQuizId == 1 && nextQuestionId == 1
    {
      quizzes := map[];
      nextQuizId := 1;
      nextQuestionId := 1;
    }

    /** The position of the question with this id, when there is one. */
    method FindQuestion(id: int) returns (pos: Option<(int, int)>)
      requires Valid()
      ensures pos.Some? ==> pos.value.0 in quizzes && 0 <= pos.value.1 < |quizzes[pos.value.0].questions|
                            && quizzes[pos.value.0].questions[pos.value.1].id == id
      ensures pos.None? <==> !QuestionExists(quizzes, id)
    {
      if QuestionExistsAt(id) {
        var k, i :| k in quizzes && 0 <= i < |quizzes[k].questions| && quizzes[k].questions[i].id == id;
        pos := Some((k, i));
      } else {
        pos := None;
      }
    }

    predicate QuestionExistsAt(id: int)
      reads this
      ensures QuestionExistsAt(id) <==> QuestionExists(quizzes, id)
    {
      exists k, i :: k in quizzes && 0 <= i < |quizzes[k].questions| && quizzes[k].questions[i].id == id
    }

    /** `AddAsync(quiz)` and a successful save: the quiz is stored under the next quiz id,
        its drafts under the next question ids. */
    method AddQuiz(quiz: Quiz, drafts: seq<QuestionDraft>) returns (id: int)
      requires Valid() && WellFormedQuiz(quiz) && quiz.questions == []
      modifies this
      ensures Valid()
      ensures id == old(nextQuizId) && id !in old(quizzes)
      ensures State() == Inserted(old(State()), quiz, drafts)
    {
      var stored := quiz.(questions := AssignIds(drafts, nextQuestionId));
      InsertKeepsValid(quizzes, nextQuizId, nextQuestionId, stored, drafts);
      id := nextQuizId;
      quizzes := quizzes[id := stored];
      nextQuizId := nextQuizId + 1;
      nextQuestionId := nextQuestionId + |drafts|;
    }

    /** `Quizzes.Remove(quiz)` and save; the cascade takes its questions and answers along. */
    method DeleteQuizRow(quizId: int)
      requires Valid() && quizId in quizzes
      modifies this
      ensures Valid()
      ensures quizzes == RemoveQuiz(old(quizzes), quizId)
      ensures nextQuizId == old(nextQuizId) && nextQuestionId == old(nextQuestionId)
    {
      RemoveQuizKeepsValid(quizzes, nextQuizId, nextQuestionId, quizId);
      quizzes := quizzes - {quizId};
    }

    /** `quiz.Title = title` and save. */
    method AssignTitle(quizId: int, title: string)
      requires Valid() && quizId in quizzes && NotEmptyString(title)
      modifies this
      ensures Valid()
      ensures quizzes == SetTitle(old(quizzes), quizId, title)
      ensures nextQuizId == old(nextQuizId) && nextQuestionId == old(nextQuestionId)
    {
      SetTitleKeepsValid(quizzes, nextQuizId, nextQuestionId, quizId, title);
      quizzes := quizzes[quizId := quizzes[quizId].(title := title)];
    }

    /** `Questions.Remove(question)` on the question at position (k, i) and save. */
    method DeleteQuestionAt(k: int, i: int)
      requires Valid() && k in quizzes && 0 <= i < |quizzes[k].questions|
      modifies this
      ensures Valid()
      ensures quizzes == RemoveQuestion(old(quizzes), old(quizzes)[k].questions[i].id)
      ensures nextQuizId == old(nextQuizId) && nextQuestionId == old(nextQuestionId)
    {
      var qs := quizzes[k].questions;
      var id := qs[i].id;
      RemoveAtPosition(quizzes, k, i);
      RemoveQuestionKeepsValid(quizzes, nextQuizId, nextQuestionId, id);
      quizzes := quizzes[k := quizzes[k].(questions := qs[..i] + qs[i + 1..])];
    }

    /** `question.Text = text`, `Answers.RemoveRange(question.Answers)`,
        `question.Answers = answers` and save, on the question at position (k, i). */
    method ReplaceQuestionAt(k: int, i: int, text: string, answers: seq<Answer>)
      requires Valid() && k in quizzes && 0 <= i < |quizzes[k].questions|
      modifies this
      ensures Valid()
      ensures quizzes == ReplaceQuestion(old(quizzes), old(quizzes)[k].questions[i].id, text, answers)
      ensures nextQuizId == old(nextQuizId) && nextQuestionId == old(nextQuestionId)
    {
      var qs := quizzes[k].questions;
      var id := qs[i].id;
      ReplaceAtPosition(quizzes, k, i, text, answers);
      ReplaceQuestionKeepsValid(quizzes, nextQuizId, nextQuestionId, id, text, answers);
      quizzes := quizzes[k := quizzes[k].(questions := qs[i := Question(id, text, answers)])];
    }
  }
}
