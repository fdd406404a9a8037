/** `DeleteQuestion` (Features/Questions/Delete/DeleteQuestion.cs): remove one question and, by
    cascade, its answers. The handler has no current-user dependency: any caller can delete any
    question. */
module DeleteQuestion {
  import opened Wrappers
  import opened Errors
  import opened Entities
  import opened Validation
  import opened Store
  import opened Http

  datatype DeleteQuestionCommand = DeleteQuestionCommand(id: int)

  const NotFoundMessage := "Question not found or You have no access to this question."

  /** The rule of `DeleteQuestion.Validator`: a positive id. */
  function Failures(cmd: DeleteQuestionCommand): (fs: seq<RuleFailure>)
    ensures fs == [] <==> cmd.id > 0
    ensures fs != [] ==> fs == [Builtin("Id")]
  {
    if cmd.id > 0 then [] else [Builtin("Id")]
  }

  /** The handler on a database snapshot (no user among its inputs: nothing is owner-checked). */
  function DeleteQuestionOutcome(s: Snapshot, cmd: DeleteQuestionCommand): (o: (Result<Unit>, Snapshot))
    ensures cmd.id <= 0 ==> o == (Failure(ValidationError(Details(Failures(cmd)))), s)
    ensures cmd.id > 0 && !QuestionExists(s.quizzes, cmd.id) ==> o == (Failure(NotFoundError(NotFoundMessage)), s)
    ensures o.0.Success? <==> cmd.id > 0 && QuestionExists(s.quizzes, cmd.id)
    ensures !o.0.Fault?
    ensures o.0.Success? ==>
              && o.1.quizzes.Keys == s.quizzes.Keys
              && o.1.nextQuizId == s.nextQuizId && o.1.nextQuestionId == s.nextQuestionId
  {
    if Failures(cmd) != [] then (Failure(ValidationError(Details(Failures(cmd)))), s)
    else if !QuestionExists(s.quizzes, cmd.id) then (Failure(NotFoundError(NotFoundMessage)), s)
    else (Success(Unit), s.(quizzes := RemoveQuestion(s.quizzes, cmd.id)))
  }

  /** A successful delete removes the question's row and its answer rows and nothing else; no
      question of that id is left, and every quiz keeps its own fields, `NumberOfQuestions`
      included. */
  lemma DeleteQuestionEffect(s: Snapshot, cmd: DeleteQuestionCommand)
    requires ValidSnapshot(s) && DeleteQuestionOutcome(s, cmd).0.Success?
    ensures var before := s.quizzes;
            var after := DeleteQuestionOutcome(s, cmd).1.quizzes;
            && QuestionTable(after) == set row | row in QuestionTable(before) && row.id != cmd.id
            && AnswerTable(after) == set row | row in AnswerTable(before) && row.questionId != cmd.id
            && QuestionIds(after) == QuestionIds(before) - {cmd.id}
            && !QuestionExists(after, cmd.id)
            && (forall k :: k in before ==> after[k].(questions := []) == before[k].(questions := []))
            && ValidSnapshot(DeleteQuestionOutcome(s, cmd).1)
  {
    RemoveQuestionEffect(s.quizzes, cmd.id);
    RemoveQuestionKeepsValid(s.quizzes, s.nextQuizId, s.nextQuestionId, cmd.id);
  }

  /** The quiz that held the question has exactly one question fewer, while its stored
      `NumberOfQuestions` stays what it was. */
  lemma DeleteQuestionShrinksQuiz(s: Snapshot, cmd: DeleteQuestionCommand, k: int, i: int)
    requires ValidSnapshot(s) && k in s.quizzes && 0 <= i < |s.quizzes[k].questions|
    requires s.quizzes[k].questions[i].id == cmd.id && cmd.id > 0
    ensures var after := DeleteQuestionOutcome(s, cmd).1.quizzes;
            && DeleteQuestionOutcome(s, cmd).0.Success?
            && after[k].questions == s.quizzes[k].questions[..i] + s.quizzes[k].questions[i + 1..]
            && |after[k].questions| == |s.quizzes[k].questions| - 1
            && after[k].numberOfQuestions == s.quizzes[k].numberOfQuestions
  {
    assert cmd.id in IdSet(s.quizzes[k].questions) by { assert s.quizzes[k].questions[i] in s.quizzes[k].questions; }
    WithoutAt(s.quizzes[k].questions, i);
  }

  /** Deleting the same id again finds nothing. */
  lemma DeleteQuestionTwice(s: Snapshot, cmd: DeleteQuestionCommand)
    requires DeleteQuestionOutcome(s, cmd).0.Success?
    ensures DeleteQuestionOutcome(DeleteQuestionOutcome(s, cmd).1, cmd).0 == Failure(NotFoundError(NotFoundMessage))
  {
    RemoveQuestionEffect(s.quizzes, cmd.id);
  }

  /** Who owns the quiz does not matter: handing the quiz to another owner changes no outcome. */
  lemma OwnerIgnored(s: Snapshot, cmd: DeleteQuestionCommand, k: int, owner: UserId)
    requires k in s.quizzes
    ensures var s' := s.(quizzes := s.quizzes[k := s.quizzes[k].(userId := owner)]);
            DeleteQuestionOutcome(s', cmd).0 == DeleteQuestionOutcome(s, cmd).0
  {
    var s' := s.(quizzes := s.quizzes[k := s.quizzes[k].(userId := owner)]);
    assert forall j :: j in s.quizzes ==> IdSet(s'.quizzes[j].questions) == IdSet(s.quizzes[j].questions);
    assert QuestionExists(s'.quizzes, cmd.id) <==> QuestionExists(s.quizzes, cmd.id);
  }

  method Handle(store: QuizStore, cmd: DeleteQuestionCommand) returns (r: Result<Unit>)
    requires store.Valid()
    modifies store
    ensures store.Valid()
    ensures (r, store.State()) == DeleteQuestionOutcome(old(store.State()), cmd)
  {
    var failures := Failures(cmd);
    if failures != [] {
      return Failure(ValidationError(Details(failures)));
    }
    var pos := store.FindQuestion(cmd.id);
    if pos.None? {
      return Failure(NotFoundError(NotFoundMessage));
    }
    store.DeleteQuestionAt(pos.value.0, pos.value.1);
    r := Success(Unit);
  }

  /** `DELETE /questions/{questionId}`: 204 on success, 400 with the error otherwise; the same
      mapping, on purpose, as `UpdateTitle.Endpoint`, as in the source. */
  function Endpoint(r: Result<Unit>): (h: Response<Unit>)
    ensures StatusCode(h) == 204 <==> r.Success?
    ensures r.Failure? ==> h == BadRequest(r.error)
  {
    NoContentOrBadRequest(r)
  }
}
