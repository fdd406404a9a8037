/** `DeleteQuiz` (Features/Quizzes/Delete/DeleteQuiz.cs): remove a quiz the caller owns, with its
    questions and answers. There is no validator, and the lookup is by id alone. */
module DeleteQuiz {
  import opened Wrappers
  import opened Errors
  import opened Entities
  import opened Store
  import opened Http

  const NotFoundMessage := "Quiz not found or You have no access to this quiz."

  /** What escapes when `quiz!.UserId` is read from the null a missing id gives: the owner test
      runs before the null test, so a missing quiz never reaches the NotFound branch. */
  const NullDereference := "NullReferenceException"

  /** The handler on a database snapshot. */
  function DeleteQuizOutcome(s: Snapshot, user: UserId, quizId: int): (o: (Result<Unit>, Snapshot))
    ensures quizId !in s.quizzes ==> o == (Fault(NullDereference), s)
    ensures quizId in s.quizzes && s.quizzes[quizId].userId != user ==> o == (Failure(NotFoundError(NotFoundMessage)), s)
    ensures o.0.Success? <==> OwnedBy(s.quizzes, quizId, user)
    ensures o.0.Success? ==>
              && o.1.quizzes.Keys == s.quizzes.Keys - {quizId}
              && (forall k :: k in o.1.quizzes ==> o.1.quizzes[k] == s.quizzes[k])
              && o.1.nextQuizId == s.nextQuizId && o.1.nextQuestionId == s.nextQuestionId
  {
    if quizId !in s.quizzes then (Fault(NullDereference), s)
    else if s.quizzes[quizId].userId != user then (Failure(NotFoundError(NotFoundMessage)), s)
    else (Success(Unit), s.(quizzes := RemoveQuiz(s.quizzes, quizId)))
  }

  /** Deleting an owned quiz takes its question rows and their answer rows along; no row of any
      other quiz goes. */
  lemma DeleteQuizCascade(s: Snapshot, user: UserId, quizId: int)
    requires ValidSnapshot(s) && OwnedBy(s.quizzes, quizId, user)
    ensures var after := DeleteQuizOutcome(s, user, quizId).1.quizzes;
            var gone := IdSet(s.quizzes[quizId].questions);
            && QuestionTable(after) == set row | row in QuestionTable(s.quizzes) && row.quizId != quizId
            && AnswerTable(after) == set row | row in AnswerTable(s.quizzes) && row.questionId !in gone
            && QuestionIds(after) == QuestionIds(s.quizzes) - gone
            && ValidSnapshot(DeleteQuizOutcome(s, user, quizId).1)
  {
    RemoveQuizCascade(s.quizzes, s.nextQuizId, s.nextQuestionId, quizId);
    RemoveQuizKeepsValid(s.quizzes, s.nextQuizId, s.nextQuestionId, quizId);
  }

  /** A second delete of the same id never succeeds: the quiz is gone, so it faults. */
  lemma DeleteTwice(s: Snapshot, user: UserId, quizId: int)
    requires DeleteQuizOutcome(s, user, quizId).0.Success?
    ensures DeleteQuizOutcome(DeleteQuizOutcome(s, user, quizId).1, user, quizId).0 == Fault(NullDereference)
  {
  }

  /** Every outcome other than success leaves the database as it was. */
  lemma DeleteFailureUnchanged(s: Snapshot, user: UserId, quizId: int)
    requires !DeleteQuizOutcome(s, user, quizId).0.Success?
    ensures DeleteQuizOutcome(s, user, quizId).1 == s
  {
  }

  method Handle(store: QuizStore, user: UserId, quizId: int) returns (r: Result<Unit>)
    requires store.Valid()
    modifies store
    ensures store.Valid()
    ensures (r, store.State()) == DeleteQuizOutcome(old(store.State()), user, quizId)
  {
    if quizId !in store.quizzes {
      return Fault(NullDereference);
    }
    if store.quizzes[quizId].userId != user {
      return Failure(NotFoundError(NotFoundMessage));
    }
    store.DeleteQuizRow(quizId);
    r := Success(Unit);
  }

  /** `DELETE /quizzes/{quizId}`: 204 on success, 400 with the error on a failure, and an
      unhandled exception (500) for the null dereference. */
  function Endpoint(r: Result<Unit>): (h: Response<Unit>)
    ensures StatusCode(h) == 204 <==> r.Success?
    ensures r.Failure? ==> h == BadRequest(r.error)
    ensures r.Fault? ==> StatusCode(h) == 500
  {
    NoContentOrBadRequest(r)
  }
}
