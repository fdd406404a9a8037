/** `CreateQuiz` (Features/Quizzes/Create/CreateQuiz.cs): validate the command, ask the generator
    for questions, map its completion and store the new quiz. */
module CreateQuiz {
  import opened Wrappers
  import opened Errors
  import opened Entities
  import opened Validation
  import opened QuestionsMapper
  import opened Store
  import opened Http

  /** The request body. `difficulty` is the integer the JSON carried: binding an enum from a
      number accepts any integer, which is why the validator checks `IsInEnum`. */
  datatype CreateQuizCommand = CreateQuizCommand(title: string, topic: string, difficulty: int, numberOfQuestions: int)

  /** What the generator is asked for. */
  datatype CreateQuizRequest = CreateQuizRequest(topic: string, difficulty: int, numberOfQuestions: int)

  const GeneratorFailureMessage := "Error while asking OpenAI API."

  /** A command the validator lets through: non-blank title and topic, a difficulty of 1, 2 or 3,
      and 1 to 25 questions. */
  predicate ValidCommand(cmd: CreateQuizCommand)
    ensures ValidCommand(cmd) ==> cmd.title != [] && cmd.topic != [] && DifficultyFromValue(cmd.difficulty).Some?
  {
    && NotEmptyString(cmd.title)
    && NotEmptyString(cmd.topic)
    && 1 <= cmd.difficulty <= 3
    && 1 <= cmd.numberOfQuestions <= 25
  }

  /** The rules of `CreateQuiz.Validator`, in declaration order, every rule evaluated. A difficulty
      of 0 fails two rules: it is no enum member, and it is the enum's default. */
  function Failures(cmd: CreateQuizCommand): (fs: seq<RuleFailure>)
    ensures fs == [] <==> ValidCommand(cmd)
  {
    var title := if NotEmptyString(cmd.title) then [] else [Builtin("Title")];
    var topic := if NotEmptyString(cmd.topic) then [] else [Builtin("Topic")];
    var inEnum := if DifficultyFromValue(cmd.difficulty).Some? then [] else [Builtin("Difficulty")];
    var notDefault := if cmd.difficulty != 0 then [] else [Builtin("Difficulty")];
    var above := if cmd.numberOfQuestions > 0 then [] else [Builtin("NumberOfQuestions")];
    var below := if cmd.numberOfQuestions <= 25 then [] else [Builtin("NumberOfQuestions")];
    title + topic + inEnum + notDefault + above + below
  }

  /** Title and topic are reported exactly when blank, with the built-in message. */
  lemma TextFailures(cmd: CreateQuizCommand)
    ensures Builtin("Title") in Failures(cmd) <==> !NotEmptyString(cmd.title)
    ensures Builtin("Topic") in Failures(cmd) <==> !NotEmptyString(cmd.topic)
    ensures forall f :: f in Failures(cmd) ==> f.customMessage == []
  {
  }

  /** Difficulty and question count are reported exactly when out of range. */
  lemma RangeFailures(cmd: CreateQuizCommand)
    ensures Builtin("Difficulty") in Failures(cmd) <==> !(1 <= cmd.difficulty <= 3)
    ensures Builtin("NumberOfQuestions") in Failures(cmd) <==> !(1 <= cmd.numberOfQuestions <= 25)
  {
  }

  /** A difficulty of 0 is reported twice, once by `IsInEnum` and once by `NotEmpty`. */
  lemma ZeroDifficultyFailsTwice(cmd: CreateQuizCommand)
    requires NotEmptyString(cmd.title) && NotEmptyString(cmd.topic) && 1 <= cmd.numberOfQuestions <= 25
    requires cmd.difficulty == 0
    ensures Failures(cmd) == [Builtin("Difficulty"), Builtin("Difficulty")]
  {
  }

  /** `new CreateQuizRequest(request.Topic, (int)request.Difficulty, request.NumberOfQuestions)`. */
  function GeneratorRequest(cmd: CreateQuizCommand): (req: CreateQuizRequest)
    ensures req.topic == cmd.topic && req.difficulty == cmd.difficulty
    ensures req.numberOfQuestions == cmd.numberOfQuestions
  {
    CreateQuizRequest(cmd.topic, cmd.difficulty, cmd.numberOfQuestions)
  }

  /** The drafts the mapper makes of the generator's answer; `None` when the call or the mapping
      throws. */
  function Drafts(completion: Option<Completion>): Option<seq<QuestionDraft>>
  {
    if completion.None? then None else DeserializeQuestions(completion.value)
  }

  /** The whole handler on a database snapshot, given what the generator answered and whether the
      save commits. */
  function CreateOutcome(s: Snapshot, cmd: CreateQuizCommand, user: UserId, completion: Option<Completion>,
                         saveSucceeds: bool): (o: (Result<int>, Snapshot))
    ensures !ValidCommand(cmd) ==> o == (Failure(ValidationError(Details(Failures(cmd)))), s)
    ensures ValidCommand(cmd) && (Drafts(completion).None? || !saveSucceeds) ==>
              o == (Failure(ThirdPartyRequestError(GeneratorFailureMessage)), s)
    ensures o.0.Success? <==> ValidCommand(cmd) && Drafts(completion).Some? && saveSucceeds
    ensures !o.0.Fault?
  {
    if !ValidCommand(cmd) then
      (Failure(ValidationError(Details(Failures(cmd)))), s)
    else if Drafts(completion).None? || !saveSucceeds then
      (Failure(ThirdPartyRequestError(GeneratorFailureMessage)), s)
    else
      var quiz := NewQuiz(user, cmd.title, cmd.topic, DifficultyFromValue(cmd.difficulty).value, cmd.numberOfQuestions);
      (Success(s.nextQuizId), Inserted(s, quiz, Drafts(completion).value))
  }

  /** The database a successful create commits. */
  lemma CreateOutcomeStores(s: Snapshot, cmd: CreateQuizCommand, user: UserId, completion: Option<Completion>)
    requires ValidCommand(cmd) && Drafts(completion).Some?
    ensures var quiz := NewQuiz(user, cmd.title, cmd.topic, DifficultyFromValue(cmd.difficulty).value, cmd.numberOfQuestions);
            CreateOutcome(s, cmd, user, completion, true) == (Success(s.nextQuizId), Inserted(s, quiz, Drafts(completion).value))
  {
  }

  /** A successful create stores one quiz under the next quiz id, built from the command and owned
      by the caller, whose questions are the mapper's drafts in order; every other quiz stays. */
  lemma CreateSuccessShape(s: Snapshot, cmd: CreateQuizCommand, user: UserId, completion: Option<Completion>,
                           saveSucceeds: bool)
    requires CreateOutcome(s, cmd, user, completion, saveSucceeds).0.Success?
    ensures var o := CreateOutcome(s, cmd, user, completion, saveSucceeds);
            var id := o.0.value;
            var drafts := Drafts(completion).value;
            && id == s.nextQuizId
            && o.1.quizzes.Keys == s.quizzes.Keys + {id}
            && (forall k :: k in s.quizzes && k != id ==> o.1.quizzes[k] == s.quizzes[k])
            && var q := o.1.quizzes[id];
               && q.userId == user && q.title == cmd.title && q.topic == cmd.topic
               && DifficultyValue(q.difficulty) == cmd.difficulty
               && q.numberOfQuestions == cmd.numberOfQuestions
               && |q.questions| == |drafts|
               && forall i :: 0 <= i < |drafts| ==>
                    q.questions[i].text == drafts[i].text && q.questions[i].answers == drafts[i].answers
  {
  }

  /** On a consistent database the new quiz gets a fresh id, no existing quiz is touched, and the
      database stays consistent. */
  lemma CreateKeepsValid(s: Snapshot, cmd: CreateQuizCommand, user: UserId, completion: Option<Completion>,
                         saveSucceeds: bool)
    requires ValidSnapshot(s)
    ensures var o := CreateOutcome(s, cmd, user, completion, saveSucceeds);
            && ValidSnapshot(o.1)
            && (o.0.Success? ==> o.0.value !in s.quizzes && o.1.quizzes == s.quizzes[o.0.value := o.1.quizzes[o.0.value]])
  {
    var o := CreateOutcome(s, cmd, user, completion, saveSucceeds);
    if o.0.Success? {
      var drafts := Drafts(completion).value;
      var quiz := NewQuiz(user, cmd.title, cmd.topic, DifficultyFromValue(cmd.difficulty).value, cmd.numberOfQuestions);
      var stored := quiz.(questions := AssignIds(drafts, s.nextQuestionId));
      InsertKeepsValid(s.quizzes, s.nextQuizId, s.nextQuestionId, stored, drafts);
    }
  }

  /** The handler. It asks the generator only for a valid command, and returns what it asked for
      alongside its result. */
  method Handle(store: QuizStore, cmd: CreateQuizCommand, user: UserId,
                generator: CreateQuizRequest -> Option<Completion>, saveSucceeds: bool)
    returns (r: Result<int>, asked: Option<CreateQuizRequest>)
    requires store.Valid()
    modifies store
    ensures store.Valid()
    ensures asked == (if ValidCommand(cmd) then Some(GeneratorRequest(cmd)) else None)
    ensures (r, store.State()) == CreateOutcome(old(store.State()), cmd, user, generator(GeneratorRequest(cmd)), saveSucceeds)
  {
    ghost var s0 := store.State();
    var failures := Failures(cmd);
    if failures != [] {
      assert CreateOutcome(s0, cmd, user, generator(GeneratorRequest(cmd)), saveSucceeds)
          == (Failure(ValidationError(Details(failures))), s0);
      return Failure(ValidationError(Details(failures))), None;
    }
    asked := Some(GeneratorRequest(cmd));
    var quiz := NewQuiz(user, cmd.title, cmd.topic, DifficultyFromValue(cmd.difficulty).value, cmd.numberOfQuestions);
    var completion := generator(GeneratorRequest(cmd));
    var drafts := Drafts(completion);
    if drafts.None? || !saveSucceeds {
      assert CreateOutcome(s0, cmd, user, completion, saveSucceeds)
          == (Failure(ThirdPartyRequestError(GeneratorFailureMessage)), s0);
      return Failure(ThirdPartyRequestError(GeneratorFailureMessage)), asked;
    }
    CreateOutcomeStores(s0, cmd, user, completion);
    var id := store.AddQuiz(quiz, drafts.value);
    r := Success(id);
  }

  /** `POST /quizzes`: 201 with the location "/quizzes" on success, 400 with the error otherwise. */
  function Endpoint(r: Result<int>): (h: Response<int>)
    ensures StatusCode(h) == 201 <==> r.Success?
    ensures r.Success? ==> h == Created("/quizzes", r.value)
    ensures r.Failure? ==> h == BadRequest(r.error)
  {
    CreatedOrBadRequest("/quizzes", r)
  }

  /** Creating succeeds whatever the generator returns, as long as it maps: neither the question
      count asked for nor one correct answer per question is checked. */
  lemma {:induction false} GeneratedContentUnchecked(s: Snapshot, cmd: CreateQuizCommand, user: UserId,
                                                     completion: Completion)
    requires ValidCommand(cmd) && DeserializeQuestions(completion).Some?
    ensures var o := CreateOutcome(s, cmd, user, Some(completion), true);
            && o.0.Success?
            && |o.1.quizzes[o.0.value].questions| == |DeserializeQuestions(completion).value|
            && o.1.quizzes[o.0.value].numberOfQuestions == cmd.numberOfQuestions
  {
    var o := CreateOutcome(s, cmd, user, Some(completion), true);
    assert Drafts(Some(completion)) == DeserializeQuestions(completion);
  }
}
