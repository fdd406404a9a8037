/** The persisted entities of the back end (Domain/Entities/Quiz.cs and the Question and
    Answer rows it owns). A quiz's own id is its key in the store's map. */
module Entities {
  import opened Wrappers

  /** The owner's `Guid`; the model only ever compares owners for equality. */
  type UserId = int

  /** `enum Difficulty { Easy = 1, Medium = 2, Hard = 3 }`. */
  datatype Difficulty = Easy | Medium | Hard

  /** The enum's integer, which is what the non-null `int` column `Difficulty` stores. */
  function DifficultyValue(d: Difficulty): (n: int)
    ensures 1 <= n <= 3
  {
    match d
    case Easy => 1
    case Medium => 2
    case Hard => 3
  }

  /** The enum member with a given integer, if there is one: exactly 1, 2 and 3 name a member,
      and the member found carries that integer back. */
  function DifficultyFromValue(n: int): (r: Option<Difficulty>)
    ensures r.Some? <==> 1 <= n <= 3
    ensures r.Some? ==> DifficultyValue(r.value) == n
  {
    if n == 1 then Some(Easy)
    else if n == 2 then Some(Medium)
    else if n == 3 then Some(Hard)
    else None
  }

  /** An answer row: its text and whether it is the correct one. */
  datatype Answer = Answer(text: string, isCorrect: bool)

  /** A question row with the answer rows it owns (cascade delete, QuestionConfiguration.cs). */
  datatype Question = Question(id: int, text: string, answers: seq<Answer>)

  /** A quiz row with the question rows it owns (cascade delete, QuizConfiguration.cs). */
  datatype Quiz = Quiz(
    userId: UserId,
    title: string,
    topic: string,
    difficulty: Difficulty,
    numberOfQuestions: int,
    questions: seq<Question>)

  /** `new Quiz { Title, Topic, Difficulty, NumberOfQuestions, UserId }`: the collection
      initialiser `= []` leaves a fresh quiz without questions. */
  function NewQuiz(userId: UserId, title: string, topic: string, difficulty: Difficulty, count: int): (q: Quiz)
    ensures q.questions == []
    ensures q.userId == userId && q.title == title && q.topic == topic
    ensures q.difficulty == difficulty && q.numberOfQuestions == count
  {
    Quiz(userId, title, topic, difficulty, count, [])
  }

  /** The number of answers of a question flagged as correct (`Answers.Count(a => a.IsCorrect)`). */
  function CorrectCount(answers: seq<Answer>): (n: nat)
    ensures n <= |answers|
    ensures n == 0 <==> forall i :: 0 <= i < |answers| ==> !answers[i].isCorrect
  {
    if answers == [] then 0
    else (if answers[0].isCorrect then 1 else 0) + CorrectCount(answers[1..])
  }

  /** Exactly one answer of the list is flagged correct. */
  predicate ExactlyOneCorrect(answers: seq<Answer>)
  {
    exists i :: 0 <= i < |answers| && answers[i].isCorrect
                && forall j :: 0 <= j < |answers| && j != i ==> !answers[j].isCorrect
  }

  /** `Answers.Count(a => a.IsCorrect) == 1` says exactly that one answer is correct. */
  lemma CorrectCountOne(answers: seq<Answer>)
    ensures CorrectCount(answers) == 1 <==> ExactlyOneCorrect(answers)
  {
    if CorrectCount(answers) == 1 {
      CountOneHasWitness(answers);
    }
    if ExactlyOneCorrect(answers) {
      WitnessHasCountOne(answers);
    }
  }

  lemma {:induction false} CountOneHasWitness(answers: seq<Answer>)
    requires CorrectCount(answers) == 1
    ensures ExactlyOneCorrect(answers)
  {
    var tail := answers[1..];
    assert forall j :: 1 <= j < |answers| ==> answers[j] == tail[j - 1];
    if answers[0].isCorrect {
      assert CorrectCount(tail) == 0;
      assert forall j :: 0 <= j < |answers| && j != 0 ==> !answers[j].isCorrect;
    } else {
      CountOneHasWitness(tail);
      var i :| 0 <= i < |tail| && tail[i].isCorrect
               && forall j :: 0 <= j < |tail| && j != i ==> !tail[j].isCorrect;
      assert answers[i + 1].isCorrect;
      assert forall j :: 0 <= j < |answers| && j != i + 1 ==> !answers[j].isCorrect;
    }
  }

  lemma {:induction false} WitnessHasCountOne(answers: seq<Answer>)
    requires ExactlyOneCorrect(answers)
    ensures CorrectCount(answers) == 1
  {
    var tail := answers[1..];
    assert forall j :: 1 <= j < |answers| ==> answers[j] == tail[j - 1];
    var i :| 0 <= i < |answers| && answers[i].isCorrect
             && forall j :: 0 <= j < |answers| && j != i ==> !answers[j].isCorrect;
    if i == 0 {
      assert forall j :: 0 <= j < |tail| ==> !tail[j].isCorrect;
      assert CorrectCount(tail) == 0;
    } else {
      assert !answers[0].isCorrect;
      assert tail[i - 1].isCorrect;
      assert forall j :: 0 <= j < |tail| && j != i - 1 ==> !tail[j].isCorrect;
      WitnessHasCountOne(tail);
    }
  }
}
