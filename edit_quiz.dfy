/** The quiz-editing page (src/pages/EditQuiz.tsx): the local edits of the question list are pure
    transformations of a sequence; the handlers of `EditQuizPage` apply them to the page state and
    make the client calls. */
module EditQuiz {
  import opened Wrappers
  import opened JsText
  import opened Api
  import Entities
  import Validation
  import UQ = UpdateQuestion

  /** An answer on the page; one the user adds has no id yet (`id?: number`). */
  datatype DraftAnswer = DraftAnswer(id: Option<int>, text: string, isCorrect: bool)

  datatype EditableQuestion = EditableQuestion(id: int, text: string, answers: seq<DraftAnswer>)

  /** The list the details call returned, as the page holds it. */
  function FromDetails(qs: seq<Question>): (r: seq<EditableQuestion>)
    ensures |r| == |qs|
    ensures forall i :: 0 <= i < |qs| ==>
              && r[i].id == qs[i].id && r[i].text == qs[i].text && |r[i].answers| == |qs[i].answers|
              && forall j :: 0 <= j < |qs[i].answers| ==>
                   r[i].answers[j] == DraftAnswer(Some(qs[i].answers[j].id), qs[i].answers[j].text, qs[i].answers[j].isCorrect)
  {
    seq(|qs|, i requires 0 <= i < |qs| =>
      EditableQuestion(qs[i].id, qs[i].text,
        seq(|qs[i].answers|, j requires 0 <= j < |qs[i].answers| =>
          DraftAnswer(Some(qs[i].answers[j].id), qs[i].answers[j].text, qs[i].answers[j].isCorrect))))
  }

  /** The `newQuestion` template: empty text and four blank, incorrect answers. */
  function NewQuestionTemplate(): (r: (string, seq<DraftAnswer>))
    ensures r.0 == [] && |r.1| == 4
    ensures forall i :: 0 <= i < 4 ==> r.1[i].text == [] && !r.1[i].isCorrect && r.1[i].id.None?
  {
    ("", seq(4, _ => DraftAnswer(None, "", false)))
  }

  /** `questions.filter(q => q.id !== questionId)`. */
  function DeleteLocal(qs: seq<EditableQuestion>, id: int): (r: seq<EditableQuestion>)
    ensures |r| <= |qs|
    ensures forall q :: q in r <==> q in qs && q.id != id
  {
    if qs == [] then []
    else (if qs[0].id == id then [] else [qs[0]]) + DeleteLocal(qs[1..], id)
  }

  /** The filter keeps the order: it works piece by piece. */
  lemma {:induction false} DeleteLocalAppend(a: seq<EditableQuestion>, b: seq<EditableQuestion>, id: int)
    ensures DeleteLocal(a + b, id) == DeleteLocal(a, id) + DeleteLocal(b, id)
  {
    if a != [] {
      assert (a + b)[0] == a[0];
      assert (a + b)[1..] == a[1..] + b;
      DeleteLocalAppend(a[1..], b, id);
      var head := if a[0].id == id then [] else [a[0]];
      assert DeleteLocal(a + b, id) == head + (DeleteLocal(a[1..], id) + DeleteLocal(b, id));
    } else {
      assert a + b == b;
    }
  }

  /** A list without that id comes back as it was. */
  lemma {:induction false} DeleteLocalAbsent(qs: seq<EditableQuestion>, id: int)
    requires forall i :: 0 <= i < |qs| ==> qs[i].id != id
    ensures DeleteLocal(qs, id) == qs
  {
    if qs != [] {
      DeleteLocalAbsent(qs[1..], id);
    }
  }

  /** The text area's `onChange`: every question with that id gets the new text, nothing else
      changes. */
  function EditText(qs: seq<EditableQuestion>, id: int, text: string): (r: seq<EditableQuestion>)
    ensures |r| == |qs|
    ensures forall i :: 0 <= i < |qs| ==>
              && r[i].id == qs[i].id && r[i].answers == qs[i].answers
              && r[i].text == (if qs[i].id == id then text else qs[i].text)
  {
    seq(|qs|, i requires 0 <= i < |qs| => if qs[i].id == id then qs[i].(text := text) else qs[i])
  }

  /** `q.answers.map((a, i) => i === index ? f(a) : a)` for the two answer edits. */
  function EditAnswerAt(answers: seq<DraftAnswer>, index: int, text: Option<string>): (r: seq<DraftAnswer>)
    ensures |r| == |answers|
    ensures forall j :: 0 <= j < |answers| && j != index ==> r[j] == answers[j]
    ensures 0 <= index < |answers| ==>
              && r[index].id == answers[index].id
              && (text.Some? ==> r[index] == answers[index].(text := text.value))
              && (text.None? ==> r[index] == answers[index].(isCorrect := !answers[index].isCorrect))
  {
    seq(|answers|, j requires 0 <= j < |answers| =>
      if j != index then answers[j]
      else if text.Some? then answers[j].(text := text.value)
      else answers[j].(isCorrect := !answers[j].isCorrect))
  }

  /** An answer input's `onChange`: answer `index` of the questions with that id gets the text. */
  function EditAnswerText(qs: seq<EditableQuestion>, id: int, index: int, text: string): (r: seq<EditableQuestion>)
    ensures |r| == |qs|
    ensures forall i :: 0 <= i < |qs| ==>
              && r[i].id == qs[i].id && r[i].text == qs[i].text && |r[i].answers| == |qs[i].answers|
              && (qs[i].id != id ==> r[i] == qs[i])
              && (qs[i].id == id ==>
                    forall j :: 0 <= j < |qs[i].answers| ==>
                      r[i].answers[j] == if j == index then qs[i].answers[j].(text := text) else qs[i].answers[j])
  {
    seq(|qs|, i requires 0 <= i < |qs| =>
      if qs[i].id == id then qs[i].(answers := EditAnswerAt(qs[i].answers, index, Some(text))) else qs[i])
  }

  /** The Correct button: flips `isCorrect` of answer `index` of the questions with that id, and
      of no other answer; nothing keeps the other answers from being correct as well. */
  function ToggleCorrect(qs: seq<EditableQuestion>, id: int, index: int): (r: seq<EditableQuestion>)
    ensures |r| == |qs|
    ensures forall i :: 0 <= i < |qs| ==>
              && r[i].id == qs[i].id && r[i].text == qs[i].text && |r[i].answers| == |qs[i].answers|
              && (qs[i].id != id ==> r[i] == qs[i])
              && (qs[i].id == id ==>
                    forall j :: 0 <= j < |qs[i].answers| ==>
                      && r[i].answers[j].text == qs[i].answers[j].text
                      && r[i].answers[j].id == qs[i].answers[j].id
                      && r[i].answers[j].isCorrect == (if j == index then !qs[i].answers[j].isCorrect else qs[i].answers[j].isCorrect))
  {
    seq(|qs|, i requires 0 <= i < |qs| =>
      if qs[i].id == id then qs[i].(answers := EditAnswerAt(qs[i].answers, index, None)) else qs[i])
  }

  /** Pressing Correct twice leaves the list as it was. */
  lemma ToggleTwice(qs: seq<EditableQuestion>, id: int, index: int)
    ensures ToggleCorrect(ToggleCorrect(qs, id, index), id, index) == qs
  {
    var r := ToggleCorrect(ToggleCorrect(qs, id, index), id, index);
    forall i | 0 <= i < |qs|
      ensures r[i] == qs[i]
    {
      if qs[i].id == id {
        assert r[i].answers == qs[i].answers;
      }
    }
  }

  /** `questions.find(q => q.id === questionId)`, as the index of the first match (`|qs|` for
      none). */
  function IndexOf(qs: seq<EditableQuestion>, id: int): (k: nat)
    ensures k <= |qs|
    ensures forall i :: 0 <= i < k ==> qs[i].id != id
    ensures k < |qs| ==> qs[k].id == id
  {
    if qs == [] || qs[0].id == id then 0 else 1 + IndexOf(qs[1..], id)
  }

  /** The body `handleUpdateQuestion` sends: the question's id, its text, and its answers in
      order with their ids dropped. */
  function UpdatePayload(q: EditableQuestion): (p: QuestionPayload)
    ensures p.id == q.id && p.text == q.text && |p.answers| == |q.answers|
    ensures forall j :: 0 <= j < |q.answers| ==>
              p.answers[j].text == q.answers[j].text && p.answers[j].isCorrect == q.answers[j].isCorrect
  {
    QuestionPayload(q.id, q.text, seq(|q.answers|, j requires 0 <= j < |q.answers| =>
      AnswerPayload(q.answers[j].text, q.answers[j].isCorrect)))
  }

  /** How the back end binds that JSON body to its command. */
  function AsCommand(p: QuestionPayload): (c: UQ.UpdateQuestionCommand)
    ensures c.id == p.id && c.text == p.text && |c.answers| == |p.answers|
    ensures forall j :: 0 <= j < |p.answers| ==>
              c.answers[j].text == p.answers[j].text && c.answers[j].isCorrect == p.answers[j].isCorrect
  {
    UQ.UpdateQuestionCommand(p.id, p.text, seq(|p.answers|, j requires 0 <= j < |p.answers| =>
      UQ.UpdateAnswerDto(p.answers[j].text, p.answers[j].isCorrect)))
  }

  /** Two correct answers are not exactly one. */
  lemma TwoCorrect(a: seq<Entities.Answer>, c: int, j: int)
    requires 0 <= c < |a| && 0 <= j < |a| && c != j && a[c].isCorrect && a[j].isCorrect
    ensures !Entities.ExactlyOneCorrect(a)
  {
  }

  /** The answers the back end builds from a saved question are the page's answers, flag for flag. */
  lemma SavedFlags(q: EditableQuestion)
    ensures var a := UQ.ToAnswers(AsCommand(UpdatePayload(q)).answers);
            |a| == |q.answers| && forall j :: 0 <= j < |a| ==> a[j].isCorrect == q.answers[j].isCorrect
  {
  }

  /** Lists with the same ids, position by position, find an id at the same place. */
  lemma {:induction false} IndexOfSameIds(qs: seq<EditableQuestion>, rs: seq<EditableQuestion>, id: int)
    requires |qs| == |rs| && forall i :: 0 <= i < |qs| ==> qs[i].id == rs[i].id
    ensures IndexOf(qs, id) == IndexOf(rs, id)
  {
    if qs != [] && qs[0].id != id {
      IndexOfSameIds(qs[1..], rs[1..], id);
    }
  }

  /** The page lets a user mark a second answer correct and save; the back end's validator then
      refuses the update with its exactly-one-correct message. */
  lemma SecondCorrectRefused(qs: seq<EditableQuestion>, id: int, c: int, j: int)
    requires IndexOf(qs, id) < |qs|
    requires var q := qs[IndexOf(qs, id)]; 0 <= c < |q.answers| && 0 <= j < |q.answers| && c != j
    requires qs[IndexOf(qs, id)].answers[c].isCorrect && !qs[IndexOf(qs, id)].answers[j].isCorrect
    ensures var edited := ToggleCorrect(qs, id, j);
            && IndexOf(edited, id) == IndexOf(qs, id)
            && Validation.RuleFailure("Answers", UQ.ExactlyOneMessage)
                 in UQ.Failures(AsCommand(UpdatePayload(edited[IndexOf(qs, id)])))
  {
    var k := IndexOf(qs, id);
    var edited := ToggleCorrect(qs, id, j);
    IndexOfSameIds(qs, edited, id);
    var q := edited[k];
    assert q.answers[c].isCorrect && q.answers[j].isCorrect;
    SavedFlags(q);
    TwoCorrect(UQ.ToAnswers(AsCommand(UpdatePayload(q)).answers), c, j);
  }

  /** The request `handleSaveTitle` makes: none without a route id; otherwise the title, trimmed. */
  function SaveTitleRequest(routeId: Option<int>, title: string): (c: Option<ApiCall>)
    ensures c.Some? <==> routeId.Some?
    ensures c.Some? ==> c.value.UpdateQuizTitle? && c.value.quizId == routeId.value
    ensures c.Some? ==> c.value.title == Trim(title)
  {
    if routeId.None? then None else Some(UpdateQuizTitle(routeId.value, Trim(title)))
  }

  class EditQuizPage {
    var title: string
    var questions: seq<EditableQuestion>
    var isLoading: bool
    var editingQuestion: Option<int>
    var newQuestion: (string, seq<DraftAnswer>)

    constructor ()
      ensures title == [] && questions == [] && isLoading && editingQuestion == None
      ensures newQuestion == NewQuestionTemplate()
    {
      title := "";
      questions := [];
      isLoading := true;
      editingQuestion := None;
      newQuestion := NewQuestionTemplate();
    }

    /** The details fetch on mount (`None` when it threw). The result says whether the page
        navigates back to the list. */
    method Load(details: Option<(string, seq<Question>)>) returns (leave: bool)
      modifies this
      ensures leave <==> details.None?
      ensures details.Some? ==> title == details.value.0 && questions == FromDetails(details.value.1)
      ensures details.None? ==> title == old(title) && questions == old(questions)
      ensures !isLoading && editingQuestion == old(editingQuestion) && newQuestion == old(newQuestion)
    {
      leave := details.None?;
      if details.Some? {
        title := details.value.0;
        questions := FromDetails(details.value.1);
      }
      isLoading := false;
    }

    method EditTitle(text: string)
      modifies this
      ensures title == text
      ensures questions == old(questions) && isLoading == old(isLoading)
      ensures editingQuestion == old(editingQuestion) && newQuestion == old(newQuestion)
    {
      title := text;
    }

    /** The pencil button. */
    method StartEditing(id: int)
      modifies this
      ensures editingQuestion == Some(id)
      ensures title == old(title) && questions == old(questions) && isLoading == old(isLoading)
      ensures newQuestion == old(newQuestion)
    {
      editingQuestion := Some(id);
    }

    method EditQuestionText(id: int, text: string)
      modifies this
      ensures questions == EditText(old(questions), id, text)
      ensures title == old(title) && isLoading == old(isLoading)
      ensures editingQuestion == old(editingQuestion) && newQuestion == old(newQuestion)
    {
      questions := EditText(questions, id, text);
    }

    method EditAnswer(id: int, index: int, text: string)
      modifies this
      ensures questions == EditAnswerText(old(questions), id, index, text)
      ensures title == old(title) && isLoading == old(isLoading)
      ensures editingQuestion == old(editingQuestion) && newQuestion == old(newQuestion)
    {
      questions := EditAnswerText(questions, id, index, text);
    }

    method ToggleAnswer(id: int, index: int)
      modifies this
      ensures questions == ToggleCorrect(old(questions), id, index)
      ensures title == old(title) && isLoading == old(isLoading)
      ensures editingQuestion == old(editingQuestion) && newQuestion == old(newQuestion)
    {
      questions := ToggleCorrect(questions, id, index);
    }

    /** `handleDeleteQuestion`, given whether the call succeeded: the local list loses that id only
        after the server has; a failed call leaves it alone. */
    method DeleteQuestion(id: int, ok: bool) returns (call: ApiCall)
      modifies this
      ensures call == Api.DeleteQuestion(id)
      ensures ok ==> questions == DeleteLocal(old(questions), id)
      ensures !ok ==> questions == old(questions)
      ensures title == old(title) && isLoading == old(isLoading)
      ensures editingQuestion == old(editingQuestion) && newQuestion == old(newQuestion)
    {
      call := Api.DeleteQuestion(id);
      if ok {
        questions := DeleteLocal(questions, id);
      }
    }

    /** `handleUpdateQuestion`, given whether the call succeeded: no call for an id that is not in
        the list; otherwise the payload of the first question with that id, and the editor closes
        only on success. */
    method UpdateQuestion(id: int, ok: bool) returns (call: Option<ApiCall>)
      modifies this
      ensures IndexOf(questions, id) == |questions| ==> call == None && editingQuestion == old(editingQuestion)
      ensures IndexOf(questions, id) < |questions| ==>
                && call == Some(Api.UpdateQuestion(id, UpdatePayload(questions[IndexOf(questions, id)])))
                && editingQuestion == (if ok then None else old(editingQuestion))
      ensures call.Some? ==> call.value.payload.id == call.value.questionId
      ensures title == old(title) && questions == old(questions) && isLoading == old(isLoading)
      ensures newQuestion == old(newQuestion)
    {
      var k := IndexOf(questions, id);
      if k == |questions| {
        return None;
      }
      call := Some(Api.UpdateQuestion(id, UpdatePayload(questions[k])));
      if ok {
        editingQuestion := None;
      }
    }
  }
}
