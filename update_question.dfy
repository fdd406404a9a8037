/** `UpdateQuestion` (Features/Questions/Update/UpdateQuestion.cs): replace a question's text and
    its whole answer list. The handler computes the caller's id but never uses it: there is no
    ownership check. */
module UpdateQuestion {
  import opened Wrappers
  import opened Errors
  import opened Entities
  import opened Validation
  import opened Decimal
  import opened Store
  import opened Http

  datatype UpdateAnswerDto = UpdateAnswerDto(text: string, isCorrect: bool)

  datatype UpdateQuestionCommand = UpdateQuestionCommand(id: int, text: string, answers: seq<UpdateAnswerDto>)

  const ExactlyOneMessage := "Exactly one answer must be marked as correct."

  const MismatchMessage := "Mismatched question ID."

  /** `request.Answers.Adapt<ICollection<Answer>>()`: field-by-field copies, in order. */
  function ToAnswers(dtos: seq<UpdateAnswerDto>): (answers: seq<Answer>)
    ensures |answers| == |dtos|
    ensures forall i :: 0 <= i < |dtos| ==> answers[i].text == dtos[i].text && answers[i].isCorrect == dtos[i].isCorrect
  {
    seq(|dtos|, i requires 0 <= i < |dtos| => Answer(dtos[i].text, dtos[i].isCorrect))
  }

  /** The rules of `UpdateQuestion.Validator`, every rule evaluated: a non-blank text, a non-empty
      answer list, and exactly one correct answer. An empty list breaks the last two rules. */
  function Failures(cmd: UpdateQuestionCommand): (fs: seq<RuleFailure>)
    ensures fs == [] <==> NotEmptyString(cmd.text) && ExactlyOneCorrect(ToAnswers(cmd.answers))
    ensures cmd.answers == [] ==> Builtin("Answers") in fs && RuleFailure("Answers", ExactlyOneMessage) in fs
    ensures RuleFailure("Answers", ExactlyOneMessage) in fs <==> !ExactlyOneCorrect(ToAnswers(cmd.answers))
  {
    CorrectCountOne(ToAnswers(cmd.answers));
    (if NotEmptyString(cmd.text) then [] else [Builtin("Text")])
    + (if |cmd.answers| > 0 then [] else [Builtin("Answers")])
    + (if CorrectCount(ToAnswers(cmd.answers)) == 1 then [] else [RuleFailure("Answers", ExactlyOneMessage)])
  }

  /** The not-found message names the id: it reads back from between the fixed start and end. */
  function NotFoundMessage(id: int): (m: string)
    ensures |m| > 50 && m[..17] == "Question with ID " && m[|m| - 33..] == " not found or you have no access."
    ensures ParseInt(m[17..|m| - 33]) == Some(id)
  {
    IntRoundTrip(id);
    var m := "Question with ID " + IntToString(id) + " not found or you have no access.";
    assert m[17..|m| - 33] == IntToString(id);
    m
  }

  /** The handler on a database snapshot (no user among its inputs: nothing is owner-checked). */
  function UpdateQuestionOutcome(s: Snapshot, cmd: UpdateQuestionCommand): (o: (Result<int>, Snapshot))
    ensures Failures(cmd) != [] ==> o == (Failure(ValidationError(Details(Failures(cmd)))), s)
    ensures Failures(cmd) == [] && !QuestionExists(s.quizzes, cmd.id) ==>
              o == (Failure(NotFoundError(NotFoundMessage(cmd.id))), s)
    ensures o.0.Success? <==> Failures(cmd) == [] && QuestionExists(s.quizzes, cmd.id)
    ensures !o.0.Fault?
    ensures o.0.Success? ==>
              && o.0.value == cmd.id
              && o.1.quizzes.Keys == s.quizzes.Keys
              && o.1.nextQuizId == s.nextQuizId && o.1.nextQuestionId == s.nextQuestionId
  {
    if Failures(cmd) != [] then (Failure(ValidationError(Details(Failures(cmd)))), s)
    else if !QuestionExists(s.quizzes, cmd.id) then (Failure(NotFoundError(NotFoundMessage(cmd.id))), s)
    else (Success(cmd.id), s.(quizzes := ReplaceQuestion(s.quizzes, cmd.id, cmd.text, ToAnswers(cmd.answers))))
  }

  /** The NotFound message names the id asked for, and different ids give different messages. */
  lemma NotFoundNamesId(a: int, b: int)
    ensures NotFoundMessage(a) == NotFoundMessage(b) ==> a == b
  {
    if NotFoundMessage(a) == NotFoundMessage(b) {
      var pre := "Question with ID ";
      var post := " not found or you have no access.";
      assert |IntToString(a)| == |IntToString(b)|;
      assert IntToString(a) == NotFoundMessage(a)[|pre|..|NotFoundMessage(a)| - |post|];
      assert IntToString(b) == NotFoundMessage(b)[|pre|..|NotFoundMessage(b)| - |post|];
      IntToStringInjective(a, b);
    }
  }

  /** After a successful update the question of that id carries the new text and, replacing the
      old ones wholesale, exactly the request's answers in order, of which exactly one is correct;
      the question ids, every other question row and every other answer row stay as they were. */
  lemma UpdateQuestionEffect(s: Snapshot, cmd: UpdateQuestionCommand)
    requires ValidSnapshot(s) && UpdateQuestionOutcome(s, cmd).0.Success?
    ensures var before := s.quizzes;
            var after := UpdateQuestionOutcome(s, cmd).1.quizzes;
            && (forall k, q :: k in after && q in after[k].questions && q.id == cmd.id ==>
                  q.text == cmd.text && q.answers == ToAnswers(cmd.answers) && ExactlyOneCorrect(q.answers))
            && QuestionExists(after, cmd.id)
            && QuestionIds(after) == QuestionIds(before)
            && (set row | row in QuestionTable(after) && row.id != cmd.id) == (set row | row in QuestionTable(before) && row.id != cmd.id)
            && (set row | row in AnswerTable(after) && row.questionId != cmd.id) == (set row | row in AnswerTable(before) && row.questionId != cmd.id)
            && (forall k :: k in before ==> after[k].(questions := []) == before[k].(questions := []))
            && ValidSnapshot(UpdateQuestionOutcome(s, cmd).1)
  {
    var answers := ToAnswers(cmd.answers);
    var after := ReplaceQuestion(s.quizzes, cmd.id, cmd.text, answers);
    forall k | k in s.quizzes
      ensures forall q :: q in after[k].questions <==>
                (q in s.quizzes[k].questions && q.id != cmd.id)
                || (q == Question(cmd.id, cmd.text, answers) && cmd.id in IdSet(s.quizzes[k].questions))
    {
      ReplacingMembers(s.quizzes[k].questions, cmd.id, cmd.text, answers);
    }
    var k :| k in s.quizzes && cmd.id in IdSet(s.quizzes[k].questions);
    assert Question(cmd.id, cmd.text, answers) in after[k].questions;
    ReplaceQuestionIds(s.quizzes, cmd.id, cmd.text, answers);
    ReplaceQuestionRows(s.quizzes, cmd.id, cmd.text, answers);
    ReplaceAnswerRows(s.quizzes, cmd.id, cmd.text, answers);
    ReplaceQuestionKeepsValid(s.quizzes, s.nextQuizId, s.nextQuestionId, cmd.id, cmd.text, answers);
  }

  /** Who owns the quiz does not matter: handing the quiz to another owner changes no result. */
  lemma OwnerIgnored(s: Snapshot, cmd: UpdateQuestionCommand, k: int, owner: UserId)
    requires k in s.quizzes
    ensures var s' := s.(quizzes := s.quizzes[k := s.quizzes[k].(userId := owner)]);
            UpdateQuestionOutcome(s', cmd).0 == UpdateQuestionOutcome(s, cmd).0
  {
    var s' := s.(quizzes := s.quizzes[k := s.quizzes[k].(userId := owner)]);
    assert forall j :: j in s.quizzes ==> IdSet(s'.quizzes[j].questions) == IdSet(s.quizzes[j].questions);
    assert QuestionExists(s'.quizzes, cmd.id) <==> QuestionExists(s.quizzes, cmd.id);
  }

  method Handle(store: QuizStore, cmd: UpdateQuestionCommand) returns (r: Result<int>)
    requires store.Valid()
    modifies store
    ensures store.Valid()
    ensures (r, store.State()) == UpdateQuestionOutcome(old(store.State()), cmd)
  {
    var failures := Failures(cmd);
    if failures != [] {
      return Failure(ValidationError(Details(failures)));
    }
    var pos := store.FindQuestion(cmd.id);
    if pos.None? {
      return Failure(NotFoundError(NotFoundMessage(cmd.id)));
    }
    store.ReplaceQuestionAt(pos.value.0, pos.value.1, cmd.text, ToAnswers(cmd.answers));
    r := Success(cmd.id);
  }

  /** `PUT /questions/{questionId}`: a body whose id differs from the route's is turned away with
      400 before the handler runs; otherwise 200 with no body on success, 400 with the error. */
  method Endpoint(store: QuizStore, routeId: int, cmd: UpdateQuestionCommand) returns (h: Response<int>)
    requires store.Valid()
    modifies store
    ensures store.Valid()
    ensures routeId != cmd.id ==> h == BadRequestText(MismatchMessage) && store.State() == old(store.State())
    ensures routeId == cmd.id ==>
              var o := UpdateQuestionOutcome(old(store.State()), cmd);
              h == EmptyOkOrBadRequest(o.0) && store.State() == o.1
  {
    if routeId != cmd.id {
      return BadRequestText(MismatchMessage);
    }
    var r := Handle(store, cmd);
    h := EmptyOkOrBadRequest(r);
  }
}
