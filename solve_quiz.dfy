/** The quiz-solving page (src/pages/SolveQuiz.tsx): pick a quiz, answer its questions one at a
    time, and see the score. The React state hooks are the fields of `SolveQuizPage`; each handler
    is a method. */
module SolveQuiz {
  import opened Wrappers
  import opened Api

  /** The first answer with the given id: `answers.find(a => a.id === answerId)`. */
  function FindById(answers: seq<Answer>, id: int): (r: Option<Answer>)
    ensures r.None? <==> forall i :: 0 <= i < |answers| ==> answers[i].id != id
    ensures r.Some? ==> exists i :: 0 <= i < |answers| && answers[i] == r.value
                                    && r.value.id == id
                                    && forall j :: 0 <= j < i ==> answers[j].id != id
  {
    if answers == [] then None
    else if answers[0].id == id then Some(answers[0])
    else
      var r := FindById(answers[1..], id);
      assert r.Some? ==> exists i :: 0 <= i < |answers[1..]| && answers[1..][i] == r.value && forall j :: 0 <= j < i ==> answers[1..][j].id != id;
      assert r.Some? ==> exists i :: 0 <= i < |answers| && answers[i] == r.value && forall j :: 0 <= j < i ==> answers[j].id != id by {
        if r.Some? {
          var i :| 0 <= i < |answers[1..]| && answers[1..][i] == r.value && forall j :: 0 <= j < i ==> answers[1..][j].id != id;
          assert answers[i + 1] == r.value;
          assert forall j :: 0 <= j < i + 1 ==> answers[j].id != id by {
            forall j | 0 <= j < i + 1 ensures answers[j].id != id {
              if j > 0 { assert answers[j] == answers[1..][j - 1]; }
            }
          }
        }
      }
      r
  }

  /** Entry `i` scores: it holds an id (`forEach` skips holes), and the first answer of question
      `i` with that id is a correct one. */
  predicate Hit(questions: seq<Question>, selected: seq<Option<int>>, i: int)
    requires 0 <= i < |selected| <= |questions|
  {
    selected[i].Some? && var a := FindById(questions[i].answers, selected[i].value); a.Some? && a.value.isCorrect
  }

  /** The score over the first `n` entries. */
  function ScoreUpTo(questions: seq<Question>, selected: seq<Option<int>>, n: int): int
    requires 0 <= n <= |selected| <= |questions|
  {
    if n == 0 then 0 else ScoreUpTo(questions, selected, n - 1) + (if Hit(questions, selected, n - 1) then 1 else 0)
  }

  /** How many of the first `n` entries hold an id. */
  function AnsweredUpTo(selected: seq<Option<int>>, n: int): int
    requires 0 <= n <= |selected|
  {
    if n == 0 then 0 else AnsweredUpTo(selected, n - 1) + (if selected[n - 1].Some? then 1 else 0)
  }

  /** No more points than answered entries, and no more answered entries than entries. */
  lemma {:induction false} ScoreBounds(questions: seq<Question>, selected: seq<Option<int>>, n: int)
    requires 0 <= n <= |selected| <= |questions|
    ensures 0 <= ScoreUpTo(questions, selected, n) <= AnsweredUpTo(selected, n) <= n
  {
    if n > 0 {
      ScoreBounds(questions, selected, n - 1);
    }
  }

  /** Full marks exactly when every entry is a hit. */
  lemma {:induction false} FullScore(questions: seq<Question>, selected: seq<Option<int>>, n: int)
    requires 0 <= n <= |selected| <= |questions|
    ensures ScoreUpTo(questions, selected, n) == n <==> forall i :: 0 <= i < n ==> Hit(questions, selected, i)
  {
    if n > 0 {
      FullScore(questions, selected, n - 1);
      ScoreBounds(questions, selected, n - 1);
    }
  }

  /** `newAnswers[index] = answerId` on a copy: a write past the end leaves holes before it. */
  function WriteEntry(selected: seq<Option<int>>, index: nat, id: int): (r: seq<Option<int>>)
    ensures |r| == if index < |selected| then |selected| else index + 1
    ensures r[index] == Some(id)
    ensures forall j :: 0 <= j < |r| && j != index ==> r[j] == if j < |selected| then selected[j] else None
  {
    if index < |selected| then selected[index := Some(id)]
    else selected + seq(index - |selected|, _ => None) + [Some(id)]
  }

  /** What the page renders. A quiz id of 0 is falsy, so selecting it shows the list again. */
  datatype Screen = Loading | QuizList | Results | Solving

  class SolveQuizPage {
    var selectedQuiz: Option<int>
    var questions: seq<Question>
    var currentQuestion: int
    var selectedAnswers: seq<Option<int>>
    var showResults: bool
    var isLoading: bool

    /** The current question is one of the quiz's (or 0 for a quiz without questions), and only
        questions of the quiz have entries. */
    ghost predicate Valid()
      reads this
    {
      && 0 <= currentQuestion
      && (currentQuestion < |questions| || currentQuestion == 0)
      && |selectedAnswers| <= |questions|
    }

    constructor ()
      ensures Valid()
      ensures selectedQuiz == None && questions == [] && currentQuestion == 0
      ensures selectedAnswers == [] && !showResults && isLoading
    {
      selectedQuiz := None;
      questions := [];
      currentQuestion := 0;
      selectedAnswers := [];
      showResults := false;
      isLoading := true;
    }

    function CurrentScreen(): (s: Screen)
      reads this
      ensures s == Solving ==> !isLoading && selectedQuiz.Some? && selectedQuiz.value != 0 && !showResults
    {
      if isLoading then Loading
      else if selectedQuiz.None? || selectedQuiz.value == 0 then QuizList
      else if showResults then Results
      else Solving
    }

    /** The first fetch of the list ends, whatever it returned. */
    method FinishListLoad()
      modifies this
      ensures !isLoading
      ensures selectedQuiz == old(selectedQuiz) && questions == old(questions) && currentQuestion == old(currentQuestion)
      ensures selectedAnswers == old(selectedAnswers) && showResults == old(showResults)
    {
      isLoading := false;
    }

    /** `handleQuizSelect`, given what `getQuizDetails` returned (`None` when it threw): a quiz
        that loads starts over at its first question with no answers; a failed load changes
        nothing but the loading flag. */
    method SelectQuiz(quizId: int, details: Option<seq<Question>>)
      requires Valid()
      modifies this
      ensures Valid()
      ensures !isLoading
      ensures details.Some? ==>
                && questions == details.value && selectedQuiz == Some(quizId)
                && currentQuestion == 0 && selectedAnswers == [] && !showResults
      ensures details.None? ==>
                && questions == old(questions) && selectedQuiz == old(selectedQuiz)
                && currentQuestion == old(currentQuestion) && selectedAnswers == old(selectedAnswers)
                && showResults == old(showResults)
    {
      isLoading := true;
      if details.Some? {
        questions := details.value;
        selectedQuiz := Some(quizId);
        currentQuestion := 0;
        selectedAnswers := [];
        showResults := false;
      }
      isLoading := false;
    }

    /** `handleAnswerSelect`, from one of the current question's answer buttons: the entry of the
        current question becomes that id, every other entry stays. */
    method SelectAnswer(answerId: int)
      requires Valid() && currentQuestion < |questions|
      modifies this
      ensures Valid()
      ensures selectedAnswers == WriteEntry(old(selectedAnswers), currentQuestion, answerId)
      ensures selectedAnswers[currentQuestion] == Some(answerId)
      ensures forall j :: 0 <= j < |old(selectedAnswers)| && j != currentQuestion ==> selectedAnswers[j] == old(selectedAnswers)[j]
      ensures questions == old(questions) && currentQuestion == old(currentQuestion)
      ensures selectedQuiz == old(selectedQuiz) && showResults == old(showResults) && isLoading == old(isLoading)
    {
      selectedAnswers := WriteEntry(selectedAnswers, currentQuestion, answerId);
    }

    /** `handleNext`: forward while not at the last question, otherwise to the results. */
    method Next()
      requires Valid()
      modifies this
      ensures Valid()
      ensures old(currentQuestion) < |questions| - 1 ==> currentQuestion == old(currentQuestion) + 1 && showResults == old(showResults)
      ensures old(currentQuestion) >= |questions| - 1 ==> currentQuestion == old(currentQuestion) && showResults
      ensures |questions| > 0 ==> 0 <= currentQuestion < |questions|
      ensures questions == old(questions) && selectedAnswers == old(selectedAnswers)
      ensures selectedQuiz == old(selectedQuiz) && isLoading == old(isLoading)
    {
      if currentQuestion < |questions| - 1 {
        currentQuestion := currentQuestion + 1;
      } else {
        showResults := true;
      }
    }

    /** `calculateScore`: one point per entry whose answer is correct. */
    method CalculateScore() returns (score: int)
      requires Valid()
      ensures score == ScoreUpTo(questions, selectedAnswers, |selectedAnswers|)
      ensures 0 <= score <= AnsweredUpTo(selectedAnswers, |selectedAnswers|) <= |selectedAnswers| <= |questions|
    {
      score := 0;
      var index := 0;
      while index < |selectedAnswers|
        invariant 0 <= index <= |selectedAnswers|
        invariant score == ScoreUpTo(questions, selectedAnswers, index)
      {
        var answerId := selectedAnswers[index];
        if answerId.Some? {
          var selectedAnswer := FindById(questions[index].answers, answerId.value);
          if selectedAnswer.Some? && selectedAnswer.value.isCorrect {
            score := score + 1;
          }
        }
        index := index + 1;
      }
      ScoreBounds(questions, selectedAnswers, |selectedAnswers|);
    }

    /** `handleSubmit`: the score for the toast, and the results screen. */
    method Submit() returns (score: int)
      requires Valid()
      modifies this
      ensures Valid()
      ensures score == ScoreUpTo(questions, selectedAnswers, |selectedAnswers|)
      ensures showResults
      ensures questions == old(questions) && selectedAnswers == old(selectedAnswers) && currentQuestion == old(currentQuestion)
      ensures selectedQuiz == old(selectedQuiz) && isLoading == old(isLoading)
    {
      score := CalculateScore();
      showResults := true;
    }

    /** The Try Again button: the same quiz from the start. */
    method TryAgain()
      requires Valid()
      modifies this
      ensures Valid()
      ensures currentQuestion == 0 && selectedAnswers == [] && !showResults
      ensures questions == old(questions) && selectedQuiz == old(selectedQuiz) && isLoading == old(isLoading)
    {
      currentQuestion := 0;
      selectedAnswers := [];
      showResults := false;
    }

    /** The Choose Another Quiz button: back to the list, with the rest left as it was. */
    method ChooseAnother()
      requires Valid()
      modifies this
      ensures Valid()
      ensures selectedQuiz == None && CurrentScreen() in {Loading, QuizList}
      ensures questions == old(questions) && currentQuestion == old(currentQuestion)
      ensures selectedAnswers == old(selectedAnswers) && showResults == old(showResults) && isLoading == old(isLoading)
    {
      selectedQuiz := None;
    }

    /** The last question shows Submit in place of Next: in a valid state, no question follows it,
        and a quiz without questions has no last one. */
    function OnLastQuestion(): bool
      reads this
      ensures Valid() && questions != [] ==> (OnLastQuestion() <==> currentQuestion + 1 >= |questions|)
      ensures Valid() && questions == [] ==> !OnLastQuestion()
    {
      currentQuestion == |questions| - 1
    }

    /** `disabled={!selectedAnswers[currentQuestion]}` on Next and on Submit: enabled only once an
        answer to the current question is recorded, and then that question exists. */
    function AdvanceEnabled(): bool
      reads this
      ensures AdvanceEnabled() ==> 0 <= currentQuestion < |selectedAnswers| && selectedAnswers[currentQuestion].Some?
      ensures Valid() && AdvanceEnabled() ==> currentQuestion < |questions|
    {
      Truthy(selectedAnswers, currentQuestion)
    }
  }

  /** `!!selected[i]`: an entry that exists, is no hole and is not the id 0. */
  predicate Truthy(selected: seq<Option<int>>, i: int)
    ensures Truthy(selected, i) ==> 0 <= i < |selected| && selected[i].Some?
    ensures 0 <= i < |selected| && selected[i] == Some(0) ==> !Truthy(selected, i)
  {
    0 <= i < |selected| && selected[i].Some? && selected[i].value != 0
  }

  /** Answering the current question enables the next step exactly when the answer's id is not 0,
      and the entries never outnumber the questions. */
  lemma AnswerEnablesAdvance(questions: seq<Question>, selected: seq<Option<int>>, current: nat, id: int)
    requires current < |questions| && |selected| <= |questions|
    ensures var s := WriteEntry(selected, current, id);
            (Truthy(s, current) <==> id != 0) && |s| <= |questions|
  {
  }
}
