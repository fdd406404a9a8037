/** `GetQuizDetails` (Features/Quizzes/GetDetails/GetQuizDetails.cs): one quiz the caller owns,
    with its questions and their answers. The lookup is read-only. */
module GetQuizDetails {
  import opened Wrappers
  import opened Errors
  import opened Entities
  import opened Store
  import opened Http

  /** `QuestionDto { Id, Text, Answers }` as Mapster fills it from a question row. */
  datatype QuestionDto = QuestionDto(id: int, text: string, answers: seq<Answer>)

  /** `QuizDetailsResponse(Title, Topic, Difficulty, NumberOfQuestions, Questions)`. */
  datatype QuizDetailsResponse = QuizDetailsResponse(
    title: string,
    topic: string,
    difficulty: Difficulty,
    numberOfQuestions: int,
    questions: seq<QuestionDto>)

  const NotFoundMessage := "Quiz not found."

  /** `quiz.Questions.Adapt<List<QuestionDto>>()`. */
  function ToDtos(qs: seq<Question>): (ds: seq<QuestionDto>)
    ensures |ds| == |qs|
    ensures forall i :: 0 <= i < |qs| ==> ds[i] == QuestionDto(qs[i].id, qs[i].text, qs[i].answers)
  {
    seq(|qs|, i requires 0 <= i < |qs| => QuestionDto(qs[i].id, qs[i].text, qs[i].answers))
  }

  /** The handler: found only when the quiz exists and belongs to the caller. The response's
      `NumberOfQuestions` is the number of questions the quiz holds, not the stored field. */
  function GetQuizDetails(m: map<int, Quiz>, user: UserId, quizId: int): (r: Result<QuizDetailsResponse>)
    ensures r.Success? <==> OwnedBy(m, quizId, user)
    ensures !r.Success? ==> r == Failure(NotFoundError(NotFoundMessage))
    ensures r.Success? ==>
              var q := m[quizId];
              && r.value.title == q.title && r.value.topic == q.topic && r.value.difficulty == q.difficulty
              && r.value.numberOfQuestions == |q.questions|
              && |r.value.questions| == |q.questions|
              && forall i :: 0 <= i < |q.questions| ==>
                   r.value.questions[i].id == q.questions[i].id
                   && r.value.questions[i].text == q.questions[i].text
                   && r.value.questions[i].answers == q.questions[i].answers
  {
    if !OwnedBy(m, quizId, user) then Failure(NotFoundError(NotFoundMessage))
    else
      var q := m[quizId];
      Success(QuizDetailsResponse(q.title, q.topic, q.difficulty, |q.questions|, ToDtos(q.questions)))
  }

  /** Deleting one of a quiz's questions lowers the count the details report by one, while the quiz's
      stored `NumberOfQuestions` stays as it was. */
  lemma CountFollowsDeletion(s: Snapshot, user: UserId, k: int, i: int)
    requires ValidSnapshot(s) && OwnedBy(s.quizzes, k, user) && 0 <= i < |s.quizzes[k].questions|
    ensures var id := s.quizzes[k].questions[i].id;
            var after := RemoveQuestion(s.quizzes, id);
            && GetQuizDetails(after, user, k).Success?
            && GetQuizDetails(after, user, k).value.numberOfQuestions
               == GetQuizDetails(s.quizzes, user, k).value.numberOfQuestions - 1
            && after[k].numberOfQuestions == s.quizzes[k].numberOfQuestions
  {
    WithoutAt(s.quizzes[k].questions, i);
  }

  /** Reading details of another user's quiz looks exactly like reading a quiz that does not exist. */
  lemma ForeignLooksMissing(m: map<int, Quiz>, user: UserId, quizId: int)
    requires quizId in m && m[quizId].userId != user
    ensures GetQuizDetails(m, user, quizId) == GetQuizDetails(m - {quizId}, user, quizId)
  {
  }

  /** `GET /quizzes/{quizId}`: 200 with the details, or 404 with the error. */
  function Endpoint(r: Result<QuizDetailsResponse>): (h: Response<QuizDetailsResponse>)
    ensures StatusCode(h) == 200 <==> r.Success?
    ensures r.Failure? ==> StatusCode(h) == 404 && h == NotFoundResponse(r.error)
  {
    OkOrNotFound(r)
  }
}
