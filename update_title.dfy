/** `UpdateTitle` (Features/Quizzes/Update/UpdateTitle.cs): rename a quiz the caller owns. */
module UpdateTitle {
  import opened Wrappers
  import opened Errors
  import opened Entities
  import opened Validation
  import opened Store
  import opened Http

  /** The route id and the body's title. */
  datatype UpdateTitleCommand = UpdateTitleCommand(quizId: int, title: string)

  const NotFoundMessage := "Quiz not found or You have no access to this quiz."

  /** The rules of `UpdateTitle.Validator`: a positive id and a non-blank title. */
  function Failures(cmd: UpdateTitleCommand): (fs: seq<RuleFailure>)
    ensures fs == [] <==> cmd.quizId > 0 && NotEmptyString(cmd.title)
    ensures Builtin("QuizId") in fs <==> cmd.quizId <= 0
    ensures Builtin("Title") in fs <==> !NotEmptyString(cmd.title)
  {
    (if cmd.quizId > 0 then [] else [Builtin("QuizId")])
    + (if NotEmptyString(cmd.title) then [] else [Builtin("Title")])
  }

  /** The handler on a database snapshot. */
  function UpdateTitleOutcome(s: Snapshot, user: UserId, cmd: UpdateTitleCommand): (o: (Result<Unit>, Snapshot))
    ensures Failures(cmd) != [] ==> o == (Failure(ValidationError(Details(Failures(cmd)))), s)
    ensures Failures(cmd) == [] && !OwnedBy(s.quizzes, cmd.quizId, user) ==> o == (Failure(NotFoundError(NotFoundMessage)), s)
    ensures o.0.Success? <==> Failures(cmd) == [] && OwnedBy(s.quizzes, cmd.quizId, user)
    ensures !o.0.Fault?
    ensures o.0.Success? ==>
              && o.1.nextQuizId == s.nextQuizId && o.1.nextQuestionId == s.nextQuestionId
              && o.1.quizzes.Keys == s.quizzes.Keys
              && o.1.quizzes[cmd.quizId].title == cmd.title
              && o.1.quizzes[cmd.quizId].(title := s.quizzes[cmd.quizId].title) == s.quizzes[cmd.quizId]
              && forall k :: k in s.quizzes && k != cmd.quizId ==> o.1.quizzes[k] == s.quizzes[k]
  {
    if Failures(cmd) != [] then (Failure(ValidationError(Details(Failures(cmd)))), s)
    else if !OwnedBy(s.quizzes, cmd.quizId, user) then (Failure(NotFoundError(NotFoundMessage)), s)
    else (Success(Unit), s.(quizzes := SetTitle(s.quizzes, cmd.quizId, cmd.title)))
  }

  /** Renaming keeps the database consistent. */
  lemma UpdateTitleKeepsValid(s: Snapshot, user: UserId, cmd: UpdateTitleCommand)
    requires ValidSnapshot(s)
    ensures ValidSnapshot(UpdateTitleOutcome(s, user, cmd).1)
  {
    if UpdateTitleOutcome(s, user, cmd).0.Success? {
      SetTitleKeepsValid(s.quizzes, s.nextQuizId, s.nextQuestionId, cmd.quizId, cmd.title);
    }
  }

  /** Sending the same rename twice leaves the database as one rename does, and both succeed. */
  lemma UpdateTitleIdempotent(s: Snapshot, user: UserId, cmd: UpdateTitleCommand)
    ensures var o1 := UpdateTitleOutcome(s, user, cmd);
            var o2 := UpdateTitleOutcome(o1.1, user, cmd);
            o2.1 == o1.1 && o2.0 == o1.0
  {
    var o1 := UpdateTitleOutcome(s, user, cmd);
    if o1.0.Success? {
      SetTitleEffect(s.quizzes, cmd.quizId, cmd.title);
      assert OwnedBy(o1.1.quizzes, cmd.quizId, user);
    }
  }

  /** Another user's quiz is never renamed, and the caller learns nothing beyond "not found". */
  lemma ForeignQuizUntouched(s: Snapshot, user: UserId, cmd: UpdateTitleCommand)
    requires cmd.quizId in s.quizzes && s.quizzes[cmd.quizId].userId != user
    ensures UpdateTitleOutcome(s, user, cmd).1 == s
    ensures UpdateTitleOutcome(s, user, cmd).0.Failure?
    ensures Failures(cmd) == [] ==>
              UpdateTitleOutcome(s, user, cmd).0 == UpdateTitleOutcome(s.(quizzes := s.quizzes - {cmd.quizId}), user, cmd).0
  {
  }

  method Handle(store: QuizStore, user: UserId, cmd: UpdateTitleCommand) returns (r: Result<Unit>)
    requires store.Valid()
    modifies store
    ensures store.Valid()
    ensures (r, store.State()) == UpdateTitleOutcome(old(store.State()), user, cmd)
  {
    var failures := Failures(cmd);
    if failures != [] {
      return Failure(ValidationError(Details(failures)));
    }
    if !(cmd.quizId in store.quizzes && store.quizzes[cmd.quizId].userId == user) {
      return Failure(NotFoundError(NotFoundMessage));
    }
    store.AssignTitle(cmd.quizId, cmd.title);
    r := Success(Unit);
  }

  /** `PATCH /quizzes/{quizId}/title`: 204 on success, 400 with the error otherwise. The source
      gives this endpoint the same mapping as `DELETE /questions/{questionId}`, so this member and
      `DeleteQuestion.Endpoint` are the same on purpose. */
  function Endpoint(r: Result<Unit>): (h: Response<Unit>)
    ensures StatusCode(h) == 204 <==> r.Success?
    ensures r.Failure? ==> h == BadRequest(r.error)
  {
    NoContentOrBadRequest(r)
  }
}
