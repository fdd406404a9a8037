/** `QuestionsMapper.DeserializeQuestions` (Features/Quizzes/Create/QuestionsMapper.cs), starting
    from the completion's already parsed JSON: the library parser itself is not modelled. */
module QuestionsMapper {
  import opened Wrappers
  import opened Entities

  /** A parsed JSON value. An object keeps its members in document order, duplicates included. */
  datatype Json =
    | JNull
    | JBool(b: bool)
    | JNumber(n: int)
    | JString(s: string)
    | JArray(items: seq<Json>)
    | JObject(members: seq<(string, Json)>)

  /** One content part of a chat completion. `parsed` is what `JsonDocument.Parse` makes of the
      part's text; `None` when the text is not well-formed JSON (Parse throws). */
  datatype ContentPart = ContentPart(parsed: Option<Json>)

  datatype Completion = Completion(content: seq<ContentPart>)

  /** A question as the mapper builds it: no id yet (the database assigns it on save). */
  datatype QuestionDraft = QuestionDraft(text: string, answers: seq<Answer>)

  /** The member lookup of `JsonElement.GetProperty` over an object's member list: the last
      member with that name wins; `None` (KeyNotFoundException) when there is none. */
  function LastMember(members: seq<(string, Json)>, name: string): (r: Option<Json>)
    ensures r.None? <==> forall i :: 0 <= i < |members| ==> members[i].0 != name
    ensures r.Some? ==> exists i :: 0 <= i < |members| && members[i] == (name, r.value)
                                    && forall j :: i < j < |members| ==> members[j].0 != name
  {
    if members == [] then None
    else if members[|members| - 1].0 == name then Some(members[|members| - 1].1)
    else
      var r := LastMember(members[..|members| - 1], name);
      assert forall j :: 0 <= j < |members| - 1 ==> members[..|members| - 1][j] == members[j];
      r
  }

  /** `GetProperty(name)`: `None` when the value is not an object (InvalidOperationException)
      or has no such member (KeyNotFoundException). */
  function GetProperty(j: Json, name: string): (r: Option<Json>)
    ensures r.None? <==> !j.JObject? || forall i :: 0 <= i < |j.members| ==> j.members[i].0 != name
    ensures r.Some? ==> exists i :: 0 <= i < |j.members| && j.members[i] == (name, r.value)
  {
    if j.JObject? then LastMember(j.members, name) else None
  }

  /** `EnumerateArray()`: only an array can be enumerated. */
  function EnumerateArray(j: Option<Json>): (r: Option<seq<Json>>)
    ensures r.Some? <==> j.Some? && j.value.JArray?
    ensures r.Some? ==> j == Some(JArray(r.value))
  {
    if j.Some? && j.value.JArray? then Some(j.value.items) else None
  }

  /** `GetString()`: the string of a JSON string (a JSON null is taken as a failure, see README). */
  function GetString(j: Option<Json>): (r: Option<string>)
    ensures r.Some? <==> j.Some? && j.value.JString?
    ensures r.Some? ==> j == Some(JString(r.value))
  {
    if j.Some? && j.value.JString? then Some(j.value.s) else None
  }

  /** `GetBoolean()`: only `true` and `false` are booleans. */
  function GetBoolean(j: Option<Json>): (r: Option<bool>)
    ensures r.Some? <==> j.Some? && j.value.JBool?
    ensures r.Some? ==> j == Some(JBool(r.value))
  {
    if j.Some? && j.value.JBool? then Some(j.value.b) else None
  }

  /** LINQ `Select(f).ToList()` where `f` may throw: the list of results when every element maps,
      `None` as soon as one does not. */
  function MapAll<A, B>(xs: seq<A>, f: A -> Option<B>): (r: Option<seq<B>>)
    ensures r.Some? <==> forall i :: 0 <= i < |xs| ==> f(xs[i]).Some?
    ensures r.Some? ==> |r.value| == |xs| && forall i :: 0 <= i < |xs| ==> r.value[i] == f(xs[i]).value
  {
    if xs == [] then Some([])
    else
      match f(xs[0])
      case None => None
      case Some(y) =>
        match MapAll(xs[1..], f)
        case None =>
          assert exists i :: 1 <= i < |xs| && f(xs[i]).None? by {
            var k :| 0 <= k < |xs[1..]| && f(xs[1..][k]).None?;
            assert xs[1..][k] == xs[k + 1];
          }
          None
        case Some(ys) =>
          assert forall i :: 1 <= i < |xs| ==> xs[i] == xs[1..][i - 1];
          Some([y] + ys)
  }

  /** `new Answer { Text = a.GetProperty("text").GetString()!, IsCorrect = a.GetProperty("isCorrect").GetBoolean() }`. */
  function MapAnswer(a: Json): (r: Option<Answer>)
    ensures r.Some? <==> GetString(GetProperty(a, "text")).Some? && GetBoolean(GetProperty(a, "isCorrect")).Some?
    ensures r.Some? ==> GetProperty(a, "text") == Some(JString(r.value.text))
                        && GetProperty(a, "isCorrect") == Some(JBool(r.value.isCorrect))
  {
    var text := GetString(GetProperty(a, "text"));
    var isCorrect := GetBoolean(GetProperty(a, "isCorrect"));
    if text.Some? && isCorrect.Some? then Some(Answer(text.value, isCorrect.value)) else None
  }

  /** `new Question { Text = q.GetProperty("text")..., Answers = q.GetProperty("answers").EnumerateArray().Select(...) }`. */
  function MapQuestion(q: Json): (r: Option<QuestionDraft>)
    ensures GetString(GetProperty(q, "text")).None? || EnumerateArray(GetProperty(q, "answers")).None? ==> r.None?
    ensures r.Some? ==>
              && GetProperty(q, "text") == Some(JString(r.value.text))
              && EnumerateArray(GetProperty(q, "answers")).Some?
              && |EnumerateArray(GetProperty(q, "answers")).value| == |r.value.answers|
              && forall i :: 0 <= i < |r.value.answers| ==>
                   MapAnswer(EnumerateArray(GetProperty(q, "answers")).value[i]) == Some(r.value.answers[i])
  {
    var text := GetString(GetProperty(q, "text"));
    var items := EnumerateArray(GetProperty(q, "answers"));
    if text.Some? && items.Some? then
      match MapAll(items.value, MapAnswer)
      case None => None
      case Some(answers) => Some(QuestionDraft(text.value, answers))
    else None
  }

  /** `DeserializeQuestions(completion)`: parses only `Content[0]` (an empty content list makes the
      indexer throw) and maps its "questions" array. `None` is any exception. */
  function DeserializeQuestions(completion: Completion): (r: Option<seq<QuestionDraft>>)
    ensures r.Some? <==> QuestionItems(completion).Some?
                         && forall i :: 0 <= i < |QuestionItems(completion).value| ==>
                              MapQuestion(QuestionItems(completion).value[i]).Some?
    ensures r.Some? ==> |r.value| == |QuestionItems(completion).value|
                        && forall i :: 0 <= i < |r.value| ==> MapQuestion(QuestionItems(completion).value[i]) == Some(r.value[i])
  {
    if completion.content == [] || completion.content[0].parsed.None? then None
    else
      var root := completion.content[0].parsed.value;
      match EnumerateArray(GetProperty(root, "questions"))
      case None => None
      case Some(items) => MapAll(items, MapQuestion)
  }

  /** The root's "questions" array, when the first content part has one. */
  function QuestionItems(completion: Completion): Option<seq<Json>>
  {
    if completion.content == [] || completion.content[0].parsed.None? then None
    else EnumerateArray(GetProperty(completion.content[0].parsed.value, "questions"))
  }

  /** Structure of a successful mapping: one question per element of "questions", in order; each
      question's text is that element's "text" string and its answers match the element's
      "answers" array element for element, with copied "text" and "isCorrect". */
  lemma {:induction false} DeserializeShape(completion: Completion)
    requires DeserializeQuestions(completion).Some?
    ensures QuestionItems(completion).Some?
    ensures var qs := DeserializeQuestions(completion).value;
            var items := QuestionItems(completion).value;
            |qs| == |items|
            && forall i :: 0 <= i < |items| ==>
                 && GetString(GetProperty(items[i], "text")) == Some(qs[i].text)
                 && EnumerateArray(GetProperty(items[i], "answers")).Some?
                 && var answers := EnumerateArray(GetProperty(items[i], "answers")).value;
                    |qs[i].answers| == |answers|
                    && forall k :: 0 <= k < |answers| ==>
                         && GetString(GetProperty(answers[k], "text")) == Some(qs[i].answers[k].text)
                         && GetBoolean(GetProperty(answers[k], "isCorrect")) == Some(qs[i].answers[k].isCorrect)
  {
    var qs := DeserializeQuestions(completion).value;
    var items := QuestionItems(completion).value;
    forall i | 0 <= i < |items|
      ensures && GetString(GetProperty(items[i], "text")) == Some(qs[i].text)
              && EnumerateArray(GetProperty(items[i], "answers")).Some?
              && var answers := EnumerateArray(GetProperty(items[i], "answers")).value;
                 |qs[i].answers| == |answers|
                 && forall k :: 0 <= k < |answers| ==>
                      && GetString(GetProperty(answers[k], "text")) == Some(qs[i].answers[k].text)
                      && GetBoolean(GetProperty(answers[k], "isCorrect")) == Some(qs[i].answers[k].isCorrect)
    {
      assert MapQuestion(items[i]) == Some(qs[i]);
      var answers := EnumerateArray(GetProperty(items[i], "answers")).value;
      var mapped := MapAll(answers, MapAnswer);
      assert mapped.Some? && mapped.value == qs[i].answers;
      forall k | 0 <= k < |answers|
        ensures GetString(GetProperty(answers[k], "text")) == Some(qs[i].answers[k].text)
        ensures GetBoolean(GetProperty(answers[k], "isCorrect")) == Some(qs[i].answers[k].isCorrect)
      {
        assert MapAnswer(answers[k]) == Some(mapped.value[k]);
      }
    }
  }

  /** Mapping fails, rather than defaulting, when any question element lacks a string "text" or an
      array "answers", or any of its answer elements lacks a string "text" or a boolean "isCorrect". */
  lemma {:induction false} MissingFieldFails(completion: Completion, i: int, k: int)
    requires QuestionItems(completion).Some?
    requires 0 <= i < |QuestionItems(completion).value|
    requires var q := QuestionItems(completion).value[i];
             || GetString(GetProperty(q, "text")).None?
             || EnumerateArray(GetProperty(q, "answers")).None?
             || (var answers := EnumerateArray(GetProperty(q, "answers")).value;
                 0 <= k < |answers|
                 && (GetString(GetProperty(answers[k], "text")).None?
                     || GetBoolean(GetProperty(answers[k], "isCorrect")).None?))
    ensures DeserializeQuestions(completion).None?
  {
    var items := QuestionItems(completion).value;
    var q := items[i];
    if GetString(GetProperty(q, "text")).Some? && EnumerateArray(GetProperty(q, "answers")).Some? {
      var answers := EnumerateArray(GetProperty(q, "answers")).value;
      assert MapAnswer(answers[k]).None?;
      assert MapAll(answers, MapAnswer).None?;
    }
    assert MapQuestion(q).None?;
  }

  /** Only the first content part is parsed: later parts never change the outcome. */
  lemma OnlyFirstPartParsed(first: ContentPart, rest1: seq<ContentPart>, rest2: seq<ContentPart>)
    ensures DeserializeQuestions(Completion([first] + rest1)) == DeserializeQuestions(Completion([first] + rest2))
  {
  }

  /** An empty "questions" array yields an empty question list. */
  lemma EmptyQuestionsArray(completion: Completion)
    requires QuestionItems(completion) == Some([])
    ensures DeserializeQuestions(completion) == Some([])
  {
  }
}
