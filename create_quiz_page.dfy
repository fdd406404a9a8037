/** The quiz-creation page (src/pages/CreateQuiz.tsx): the form, the checks `handleSubmit` makes
    before it calls the client, the request it builds, and the rotating topic placeholder. */
module CreateQuizPage {
  import opened Wrappers
  import opened JsText
  import opened Api
  import Validation
  import Backend = CreateQuiz

  const TitleMessage := "Please enter a quiz title"
  const TopicMessage := "Please enter a quiz topic"
  const DifficultyMessage := "Please select a difficulty level"
  const CountMessage := "Please enter a valid number of questions (1-25)"

  /** The `maxLength` of the topic input. */
  const TopicMaxLength := 150

  const PlaceholderTopics: seq<string> := [
    "Ancient Egyptian Civilization and its Mysteries",
    "Quantum Physics and String Theory",
    "Renaissance Art and Architecture",
    "Modern Technology and AI Development",
    "Environmental Science and Climate Change",
    "World Literature and Classic Novels"
  ]

  /** The `formData` state: everything as the inputs hold it, as text. */
  datatype FormData = FormData(title: string, topic: string, difficulty: string, numberOfQuestions: string)

  /** The values the difficulty select offers: the empty placeholder option and the three names. */
  predicate DifficultyOption(d: string)
  {
    d == "" || d == "Easy" || d == "Medium" || d == "Hard"
  }

  /** What `handleSubmit` does before any call: refuse with the first failed check's message, or
      build the request. */
  datatype Check = Refused(message: string) | Send(request: CreateQuizRequest)

  /** The checks in their order: trimmed title, trimmed topic, a chosen difficulty, and a count
      that `parseInt` (here `parse`, with `None` for NaN) reads as 1 to 25. */
  function Submit(form: FormData, parse: string -> Option<int>): (c: Check)
    requires DifficultyOption(form.difficulty)
    ensures c.Send? <==> Trim(form.title) != [] && Trim(form.topic) != [] && form.difficulty != ""
                         && parse(form.numberOfQuestions).Some? && 1 <= parse(form.numberOfQuestions).value <= 25
    ensures Trim(form.title) == [] ==> c == Refused(TitleMessage)
    ensures Trim(form.title) != [] && Trim(form.topic) == [] ==> c == Refused(TopicMessage)
    ensures Trim(form.title) != [] && Trim(form.topic) != [] && form.difficulty == "" ==> c == Refused(DifficultyMessage)
    ensures Trim(form.title) != [] && Trim(form.topic) != [] && form.difficulty != ""
            && !(parse(form.numberOfQuestions).Some? && 1 <= parse(form.numberOfQuestions).value <= 25)
            ==> c == Refused(CountMessage)
    ensures c.Send? ==>
              && c.request.title == Trim(form.title) && c.request.topic == Trim(form.topic)
              && Some(c.request.difficulty) == DifficultyNumber(form.difficulty)
              && 1 <= c.request.difficulty <= 3
              && Some(c.request.numberOfQuestions) == parse(form.numberOfQuestions)
              && 1 <= c.request.numberOfQuestions <= 25
  {
    if Trim(form.title) == [] then Refused(TitleMessage)
    else if Trim(form.topic) == [] then Refused(TopicMessage)
    else if form.difficulty == "" then Refused(DifficultyMessage)
    else
      var n := parse(form.numberOfQuestions);
      if n.None? || n.value < 1 || n.value > 25 then Refused(CountMessage)
      else Send(CreateQuizRequest(Trim(form.title), Trim(form.topic), DifficultyNumber(form.difficulty).value, n.value))
  }

  /** What the user sees after pressing Generate Quiz, given whether `createQuiz` resolved. */
  datatype SubmitResult = SubmitResult(call: Option<ApiCall>, toast: string, navigateTo: Option<string>)

  function HandleSubmit(form: FormData, parse: string -> Option<int>, createOk: bool): (r: SubmitResult)
    requires DifficultyOption(form.difficulty)
    ensures Submit(form, parse).Refused? ==> r == SubmitResult(None, Submit(form, parse).message, None)
    ensures Submit(form, parse).Send? ==> r.call == Some(CreateQuiz(Submit(form, parse).request))
    ensures r.navigateTo.Some? <==> Submit(form, parse).Send? && createOk
    ensures r.navigateTo.Some? ==> r.navigateTo.value == "/my-quizzes"
  {
    match Submit(form, parse)
    case Refused(m) => SubmitResult(None, m, None)
    case Send(request) =>
      if createOk then SubmitResult(Some(CreateQuiz(request)), "Quiz created successfully!", Some("/my-quizzes"))
      else SubmitResult(Some(CreateQuiz(request)), "Failed to create quiz. Please try again.", None)
  }

  /** Every .NET white-space character is JavaScript white space, except NEXT LINE (U+0085). */
  lemma WhiteSpaceTables(c: char)
    ensures Validation.IsWhiteSpace(c) ==> IsJsWhiteSpace(c) || c == '\U{85}'
  {
  }

  /** A request the page sends passes the back end's validator, unless the title or topic has a
      NEXT LINE character: trimming leaves a first character that is no JavaScript white space. */
  lemma SentRequestValid(form: FormData, parse: string -> Option<int>)
    requires DifficultyOption(form.difficulty) && Submit(form, parse).Send?
    requires var req := Submit(form, parse).request; '\U{85}' !in req.title && '\U{85}' !in req.topic
    ensures var req := Submit(form, parse).request;
            Backend.ValidCommand(Backend.CreateQuizCommand(req.title, req.topic, req.difficulty, req.numberOfQuestions))
  {
    var req := Submit(form, parse).request;
    WhiteSpaceTables(req.title[0]);
    WhiteSpaceTables(req.topic[0]);
  }

  /** Without that condition the two disagree: a title of a single NEXT LINE survives `trim()` and
      is sent, and the back end finds it blank. */
  lemma NextLineTitleRefusedByBackend(parse: string -> Option<int>)
    requires parse("5") == Some(5)
    ensures var form := FormData("\U{85}", "History", "Easy", "5");
            && Submit(form, parse).Send?
            && !Backend.ValidCommand(Backend.CreateQuizCommand(Submit(form, parse).request.title, "History", 1, 5))
  {
    var form := FormData("\U{85}", "History", "Easy", "5");
    assert Trim(form.title) == form.title by {
      assert Leading(form.title) == 0 && Trailing(form.title) == 0;
    }
    assert Trim(form.topic) != [] by {
      assert !IsJsWhiteSpace(form.topic[0]);
    }
    assert Validation.IsWhiteSpace(form.title[0]);
  }

  /** The interval tick: the next topic, wrapping from the last to the first. */
  function NextPlaceholder(i: int): (j: int)
    requires 0 <= i < |PlaceholderTopics|
    ensures 0 <= j < |PlaceholderTopics|
    ensures j == (i + 1) % |PlaceholderTopics|
  {
    if i == |PlaceholderTopics| - 1 then 0 else i + 1
  }

  /** The index after `n` ticks. */
  function AfterTicks(i: int, n: nat): int
    requires 0 <= i < |PlaceholderTopics|
    ensures 0 <= AfterTicks(i, n) < |PlaceholderTopics|
  {
    if n == 0 then i else NextPlaceholder(AfterTicks(i, n - 1))
  }

  /** `n` ticks move the placeholder `n` places round the list. */
  lemma {:induction false} TicksRotate(i: int, n: nat)
    requires 0 <= i < |PlaceholderTopics|
    ensures AfterTicks(i, n) == (i + n) % |PlaceholderTopics|
  {
    if n > 0 {
      TicksRotate(i, n - 1);
    }
  }

  /** The page's state: the form and the placeholder index. The topic never exceeds its
      `maxLength`, and the difficulty is one of the select's options. */
  class QuizForm {
    var formData: FormData
    var placeholderIndex: int

    ghost predicate Valid()
      reads this
    {
      && 0 <= placeholderIndex < |PlaceholderTopics|
      && |formData.topic| <= TopicMaxLength
      && DifficultyOption(formData.difficulty)
    }

    constructor ()
      ensures Valid()
      ensures formData == FormData("", "", "", "") && placeholderIndex == 0
    {
      formData := FormData("", "", "", "");
      placeholderIndex := 0;
    }

    function Placeholder(): string
      requires Valid()
      reads this
    {
      PlaceholderTopics[placeholderIndex]
    }

    method Tick()
      requires Valid()
      modifies this
      ensures Valid()
      ensures placeholderIndex == NextPlaceholder(old(placeholderIndex))
      ensures formData == old(formData)
    {
      placeholderIndex := if placeholderIndex == |PlaceholderTopics| - 1 then 0 else placeholderIndex + 1;
    }

    method SetTitle(value: string)
      requires Valid()
      modifies this
      ensures Valid()
      ensures formData == old(formData).(title := value) && placeholderIndex == old(placeholderIndex)
    {
      formData := formData.(title := value);
    }

    /** The topic input's `onChange`. With `maxLength={150}` the browser never hands it a longer
        value, so the cut to the first 150 characters only makes that bound explicit. Dafny counts
        Unicode scalar values, while `maxLength` counts UTF-16 code units. */
    method SetTopic(value: string)
      requires Valid()
      modifies this
      ensures Valid()
      ensures formData.topic == if |value| <= TopicMaxLength then value else value[..TopicMaxLength]
      ensures formData == old(formData).(topic := formData.topic) && placeholderIndex == old(placeholderIndex)
    {
      formData := formData.(topic := if |value| <= TopicMaxLength then value else value[..TopicMaxLength]);
    }

    method SetDifficulty(value: string)
      requires Valid() && DifficultyOption(value)
      modifies this
      ensures Valid()
      ensures formData == old(formData).(difficulty := value) && placeholderIndex == old(placeholderIndex)
    {
      formData := formData.(difficulty := value);
    }

    method SetNumberOfQuestions(value: string)
      requires Valid()
      modifies this
      ensures Valid()
      ensures formData == old(formData).(numberOfQuestions := value) && placeholderIndex == old(placeholderIndex)
    {
      formData := formData.(numberOfQuestions := value);
    }
  }
}
