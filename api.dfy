/** The front end's API client (src/services/api.ts): the difficulty tables, the request headers,
    and the method, URL and body of each call. `fetch` itself is not modelled; a call's reply is
    an input. */
module Api {
  import opened Wrappers
  import opened Decimal

  /** How a promise of the client settles: with a value, or by throwing an `Error(message)`. */
  datatype Call<+T> = Resolved(value: T) | Rejected(message: string)

  /** `difficultyMap`: the number the back end stores to the name the pages show. A number
      outside the table looks up `undefined`. */
  function DifficultyName(n: int): (r: Option<string>)
    ensures r.Some? <==> 1 <= n <= 3
  {
    if n == 1 then Some("Easy") else if n == 2 then Some("Medium") else if n == 3 then Some("Hard") else None
  }

  /** `difficultyReverseMap`: a name back to its number. */
  function DifficultyNumber(name: string): (r: Option<int>)
    ensures r.Some? <==> name == "Easy" || name == "Medium" || name == "Hard"
    ensures r.Some? ==> 1 <= r.value <= 3
  {
    if name == "Easy" then Some(1) else if name == "Medium" then Some(2) else if name == "Hard" then Some(3) else None
  }

  /** The two tables are inverse to each other: a number names a difficulty exactly when that name
      maps back to the number. */
  lemma DifficultyTablesInverse(n: int, name: string)
    ensures DifficultyName(n) == Some(name) <==> DifficultyNumber(name) == Some(n)
  {
    assert "Easy" != "Medium" && "Easy" != "Hard" && "Medium" != "Hard" by {
      assert "Easy"[0] != "Hard"[0];
    }
  }

  const NoTokenMessage := "No authentication token found"

  type Header = (string, string)

  /** `getHeaders`, on the access token of the session (`None` when there is no session). A
      missing token and an empty one are both falsy, so both throw. */
  function GetHeaders(token: Option<string>): (r: Call<seq<Header>>)
    ensures r.Rejected? <==> token.None? || token.value == ""
    ensures r.Rejected? ==> r.message == NoTokenMessage
    ensures r.Resolved? ==>
              && |r.value| == 2
              && r.value[0].0 == "Authorization"
              && |r.value[0].1| == 7 + |token.value|
              && r.value[0].1[..7] == "Bearer " && r.value[0].1[7..] == token.value
              && r.value[1] == ("Content-Type", "application/json")
  {
    if token.None? || token.value == "" then Rejected(NoTokenMessage)
    else Resolved([("Authorization", "Bearer " + token.value), ("Content-Type", "application/json")])
  }

  /** An answer and a question as the details call returns them, ids included. */
  datatype Answer = Answer(id: int, text: string, isCorrect: bool)

  datatype Question = Question(id: int, text: string, answers: seq<Answer>)

  /** The body of `createQuiz`. */
  datatype CreateQuizRequest = CreateQuizRequest(title: string, topic: string, difficulty: int, numberOfQuestions: int)

  datatype AnswerPayload = AnswerPayload(text: string, isCorrect: bool)

  /** The body of `updateQuestion`. */
  datatype QuestionPayload = QuestionPayload(id: int, text: string, answers: seq<AnswerPayload>)

  /** The client's functions, with their arguments; an omitted page argument is `None`. */
  datatype ApiCall =
    | CreateQuiz(data: CreateQuizRequest)
    | GetQuizzes(pageNumber: Option<int>, pageSize: Option<int>)
    | GetQuizDetails(id: int)
    | DeleteQuiz(quizId: int)
    | UpdateQuizTitle(quizId: int, title: string)
    | DeleteQuestion(questionId: int)
    | UpdateQuestion(questionId: int, payload: QuestionPayload)

  /** What a call addresses on the server, once its defaults are filled in. */
  datatype Target =
    | QuizCollection
    | QuizPage(pageNumber: int, pageSize: int)
    | QuizDetails(id: int)
    | QuizDeletion(id: int)
    | QuizTitle(id: int)
    | QuestionDeletion(id: int)
    | QuestionUpdate(id: int)

  /** `getQuizzes(pageNumber = 1, pageSize = 12)`. */
  function TargetOf(c: ApiCall): (t: Target)
    ensures c.GetQuizzes? ==>
              t == QuizPage(if c.pageNumber.Some? then c.pageNumber.value else 1,
                            if c.pageSize.Some? then c.pageSize.value else 12)
  {
    match c
    case CreateQuiz(_) => QuizCollection
    case GetQuizzes(n, s) => QuizPage(if n.Some? then n.value else 1, if s.Some? then s.value else 12)
    case GetQuizDetails(id) => QuizDetails(id)
    case DeleteQuiz(id) => QuizDeletion(id)
    case UpdateQuizTitle(id, _) => QuizTitle(id)
    case DeleteQuestion(id) => QuestionDeletion(id)
    case UpdateQuestion(id, _) => QuestionUpdate(id)
  }

  datatype Method = Get | Post | Put | Patch | Delete

  datatype Body = NoBody | QuizBody(quiz: CreateQuizRequest) | TitleBody(title: string) | QuestionBody(question: QuestionPayload)

  datatype Request = Request(verb: Method, url: string, headers: seq<Header>, body: Body)

  /** `${API_URL}/quizzes/${id}`; `IdUrlInjective` shows the id reads back from it. */
  function QuizUrl(base: string, id: int): (u: string)
    ensures |u| > |base| + 9 && u[..|base| + 9] == base + "/quizzes/"
  {
    base + "/quizzes/" + IntToString(id)
  }

  /** `${API_URL}/questions/${id}`; `IdUrlInjective` shows the id reads back from it. */
  function QuestionUrl(base: string, id: int): (u: string)
    ensures |u| > |base| + 11 && u[..|base| + 11] == base + "/questions/"
  {
    base + "/questions/" + IntToString(id)
  }

  /** `${API_URL}/quizzes?pageNumber=${page}&pageSize=${pageSize}`: the collection's path with a
      query; `PageUrlInjective` shows the URL determines both numbers. */
  function PageUrl(base: string, pageNumber: int, pageSize: int): (u: string)
    ensures |u| > |base| + 20 && u[..|base| + 20] == base + "/quizzes?pageNumber="
  {
    base + "/quizzes?pageNumber=" + IntToString(pageNumber) + "&pageSize=" + IntToString(pageSize)
  }

  /** The HTTP method and the URL (relative to `API_URL`, here `base`) of each target. Every URL
      lies under `API_URL`; reads are the GETs, and the two deletions the DELETEs. */
  function Route(base: string, t: Target): (r: (Method, string))
    ensures |r.1| > |base| && r.1[..|base|] == base
    ensures r.0 == Get <==> t.QuizPage? || t.QuizDetails?
    ensures r.0 == Delete <==> t.QuizDeletion? || t.QuestionDeletion?
  {
    match t
    case QuizCollection => (Post, base + "/quizzes")
    case QuizPage(n, s) => (Get, PageUrl(base, n, s))
    case QuizDetails(id) => (Get, QuizUrl(base, id))
    case QuizDeletion(id) => (Delete, QuizUrl(base, id))
    case QuizTitle(id) => (Patch, QuizUrl(base, id) + "/title")
    case QuestionDeletion(id) => (Delete, QuestionUrl(base, id))
    case QuestionUpdate(id) => (Put, QuestionUrl(base, id))
  }

  /** The body a call sends: exactly the calls whose route is a GET or a DELETE (see `Route`)
      send none. */
  function BodyOf(c: ApiCall): (b: Body)
    ensures b.NoBody? <==> TargetOf(c).QuizPage? || TargetOf(c).QuizDetails? || TargetOf(c).QuizDeletion? || TargetOf(c).QuestionDeletion?
    ensures c.CreateQuiz? ==> b == QuizBody(c.data)
  {
    match c
    case CreateQuiz(data) => QuizBody(data)
    case UpdateQuizTitle(_, title) => TitleBody(title)
    case UpdateQuestion(_, payload) => QuestionBody(payload)
    case _ => NoBody
  }

  /** The request a call hands to `fetch`, or the error `getHeaders` throws before anything is sent. */
  function Send(base: string, c: ApiCall, token: Option<string>): (r: Call<Request>)
    ensures r.Rejected? <==> GetHeaders(token).Rejected?
    ensures r.Rejected? ==> r.message == NoTokenMessage
    ensures r.Resolved? ==>
              && (r.value.verb, r.value.url) == Route(base, TargetOf(c))
              && r.value.headers == GetHeaders(token).value
              && r.value.body == BodyOf(c)
  {
    match GetHeaders(token)
    case Rejected(m) => Rejected(m)
    case Resolved(headers) =>
      var (verb, url) := Route(base, TargetOf(c));
      Resolved(Request(verb, url, headers, BodyOf(c)))
  }

  /** Dropping a common prefix. */
  lemma PrefixCancel(p: string, a: string, b: string)
    requires p + a == p + b
    ensures a == b
  {
    assert a == (p + a)[|p|..];
    assert b == (p + b)[|p|..];
  }

  /** The position of the first `ch` in `s`, or `|s|` when there is none. */
  function Find(s: string, ch: char): (i: nat)
    ensures i <= |s|
    ensures forall j :: 0 <= j < i ==> s[j] != ch
    ensures i < |s| ==> s[i] == ch
  {
    if s == [] then 0 else if s[0] == ch then 0 else 1 + Find(s[1..], ch)
  }

  /** A prefix free of `ch`, followed by `ch`, puts the first `ch` just after the prefix. */
  lemma {:induction false} FindAfter(a: string, rest: string, ch: char)
    requires forall i :: 0 <= i < |a| ==> a[i] != ch
    requires rest != [] && rest[0] == ch
    ensures Find(a + rest, ch) == |a|
  {
    if a != [] {
      assert (a + rest)[1..] == a[1..] + rest;
      FindAfter(a[1..], rest, ch);
    }
  }

  /** Two strings joined by a separator whose first character neither left part contains split
      back into the same parts. */
  lemma SplitAtSeparator(a: string, sep: string, b: string, c: string, d: string)
    requires sep != [] && a + sep + b == c + sep + d
    requires forall i :: 0 <= i < |a| ==> a[i] != sep[0]
    requires forall i :: 0 <= i < |c| ==> c[i] != sep[0]
    ensures a == c && b == d
  {
    assert a + sep + b == a + (sep + b);
    assert c + sep + d == c + (sep + d);
    FindAfter(a, sep + b, sep[0]);
    FindAfter(c, sep + d, sep[0]);
    assert a == (a + sep + b)[..|a|];
    assert c == (c + sep + d)[..|c|];
    PrefixCancel(a + sep, b, d);
  }

  /** The page URL as the fixed prefix followed by the two numbers and their separator. */
  lemma PageUrlSplit(base: string, n: int, s: int)
    ensures PageUrl(base, n, s) == (base + "/quizzes?pageNumber=") + (IntToString(n) + "&pageSize=" + IntToString(s))
  {
  }

  lemma PageUrlInjective(base: string, n1: int, s1: int, n2: int, s2: int)
    requires PageUrl(base, n1, s1) == PageUrl(base, n2, s2)
    ensures n1 == n2 && s1 == s2
  {
    var p, sep := base + "/quizzes?pageNumber=", "&pageSize=";
    var x1, x2, y1, y2 := IntToString(n1), IntToString(n2), IntToString(s1), IntToString(s2);
    var r1, r2 := x1 + sep + y1, x2 + sep + y2;
    PageUrlSplit(base, n1, s1);
    PageUrlSplit(base, n2, s2);
    PrefixCancel(p, r1, r2);
    SplitAtSeparator(x1, sep, y1, x2, y2);
    IntToStringInjective(n1, n2);
    IntToStringInjective(s1, s2);
  }

  lemma IdUrlInjective(prefix: string, a: int, b: int)
    requires prefix + IntToString(a) == prefix + IntToString(b)
    ensures a == b
  {
    PrefixCancel(prefix, IntToString(a), IntToString(b));
    IntToStringInjective(a, b);
  }

  /** What tells the routes apart: the method and the characters at offsets 3 and 8 after the base
      (`'%'` past the end). */
  function Signature(base: string, route: (Method, string)): (Method, char, char)
  {
    var u := route.1;
    (route.0, if |base| + 3 < |u| then u[|base| + 3] else '%', if |base| + 8 < |u| then u[|base| + 8] else '%')
  }

  function ExpectedSignature(t: Target): (Method, char, char)
  {
    match t
    case QuizCollection => (Post, 'i', '%')
    case QuizPage(_, _) => (Get, 'i', '?')
    case QuizDetails(_) => (Get, 'i', '/')
    case QuizDeletion(_) => (Delete, 'i', '/')
    case QuizTitle(_) => (Patch, 'i', '/')
    case QuestionDeletion(_) => (Delete, 'e', 'n')
    case QuestionUpdate(_) => (Put, 'e', 'n')
  }

  /** A character inside a known prefix of a string is the prefix's character. */
  lemma PrefixAt(u: string, p: string, i: nat)
    requires |p| <= |u| && u[..|p|] == p && i < |p|
    ensures u[i] == p[i]
  {
    assert u[..|p|][i] == u[i];
  }

  lemma SignatureOfRoute(base: string, t: Target)
    ensures Signature(base, Route(base, t)) == ExpectedSignature(t)
  {
    var u := Route(base, t).1;
    var quizzes, questions := base + "/quizzes/", base + "/questions/";
    match t
    case QuizCollection =>
      assert u == base + "/quizzes";
    case QuizPage(n, s) =>
      PrefixAt(u, base + "/quizzes?pageNumber=", |base| + 3);
      PrefixAt(u, base + "/quizzes?pageNumber=", |base| + 8);
    case QuizDetails(id) =>
      PrefixAt(u, quizzes, |base| + 3);
      PrefixAt(u, quizzes, |base| + 8);
    case QuizDeletion(id) =>
      PrefixAt(u, quizzes, |base| + 3);
      PrefixAt(u, quizzes, |base| + 8);
    case QuizTitle(id) =>
      var q := QuizUrl(base, id);
      assert u[..|quizzes|] == q[..|quizzes|];
      PrefixAt(u, quizzes, |base| + 3);
      PrefixAt(u, quizzes, |base| + 8);
    case QuestionDeletion(id) =>
      PrefixAt(u, questions, |base| + 3);
      PrefixAt(u, questions, |base| + 8);
    case QuestionUpdate(id) =>
      PrefixAt(u, questions, |base| + 3);
      PrefixAt(u, questions, |base| + 8);
  }

  /** Different targets are different requests: the method and the URL together tell which
      function of the client was called, with which id or page. */
  lemma RouteInjective(base: string, t1: Target, t2: Target)
    ensures Route(base, t1) == Route(base, t2) <==> t1 == t2
  {
    if Route(base, t1) == Route(base, t2) {
      SignatureOfRoute(base, t1);
      SignatureOfRoute(base, t2);
      match t1
      case QuizCollection =>
      case QuizPage(n, s) =>
        PageUrlInjective(base, n, s, t2.pageNumber, t2.pageSize);
      case QuizDetails(id) =>
        IdUrlInjective(base + "/quizzes/", id, t2.id);
      case QuizDeletion(id) =>
        IdUrlInjective(base + "/quizzes/", id, t2.id);
      case QuizTitle(id) =>
        var u := QuizUrl(base, id) + "/title";
        var w := QuizUrl(base, t2.id) + "/title";
        assert QuizUrl(base, id) == u[..|u| - 6];
        assert QuizUrl(base, t2.id) == w[..|w| - 6];
        IdUrlInjective(base + "/quizzes/", id, t2.id);
      case QuestionDeletion(id) =>
        IdUrlInjective(base + "/questions/", id, t2.id);
      case QuestionUpdate(id) =>
        IdUrlInjective(base + "/questions/", id, t2.id);
    }
  }

  /** The two calls that send the same request, apart from the body, are the same function with
      the same id or page. */
  lemma SameRequestSameTarget(base: string, c1: ApiCall, c2: ApiCall, token: Option<string>)
    requires Send(base, c1, token).Resolved? && Send(base, c2, token).Resolved?
    requires Send(base, c1, token).value.verb == Send(base, c2, token).value.verb
    requires Send(base, c1, token).value.url == Send(base, c2, token).value.url
    ensures TargetOf(c1) == TargetOf(c2)
  {
    RouteInjective(base, TargetOf(c1), TargetOf(c2));
  }

  /** The `Error` each call throws on a reply that is not ok. */
  function FailureMessage(c: ApiCall): (m: string)
    ensures |m| > 10 && m[..10] == "Failed to " && m != NoTokenMessage
  {
    match c
    case CreateQuiz(_) => "Failed to create quiz"
    case GetQuizzes(_, _) => "Failed to fetch quizzes"
    case GetQuizDetails(_) => "Failed to fetch quiz details"
    case DeleteQuiz(_) => "Failed to delete quiz"
    case UpdateQuizTitle(_, _) => "Failed to update quiz title"
    case DeleteQuestion(_) => "Failed to delete question"
    case UpdateQuestion(_, _) => "Failed to update question"
  }

  /** The calls that resolve with `response.json()`; the others resolve with nothing. */
  predicate ReturnsBody(c: ApiCall)
  {
    c.CreateQuiz? || c.GetQuizzes? || c.GetQuizDetails?
  }

  /** A whole call, given the reply the server sends (`ok` and the decoded JSON): the token check
      first, then the status check. */
  function Invoke<J>(c: ApiCall, token: Option<string>, ok: bool, json: J): (r: Call<Option<J>>)
    ensures GetHeaders(token).Rejected? ==> r == Rejected(NoTokenMessage)
    ensures GetHeaders(token).Resolved? && !ok ==> r == Rejected(FailureMessage(c))
    ensures r.Resolved? <==> GetHeaders(token).Resolved? && ok
    ensures r.Resolved? ==> (r.value.Some? <==> ReturnsBody(c)) && (r.value.Some? ==> r.value.value == json)
  {
    if GetHeaders(token).Rejected? then Rejected(NoTokenMessage)
    else if !ok then Rejected(FailureMessage(c))
    else if ReturnsBody(c) then Resolved(Some(json))
    else Resolved(None)
  }

  /** Which function of the client a call is. */
  function Kind(c: ApiCall): int
  {
    match c
    case CreateQuiz(_) => 0
    case GetQuizzes(_, _) => 1
    case GetQuizDetails(_) => 2
    case DeleteQuiz(_) => 3
    case UpdateQuizTitle(_, _) => 4
    case DeleteQuestion(_) => 5
    case UpdateQuestion(_, _) => 6
  }

  /** The length and the eleventh character of each failure message, which tell them apart. */
  function MessageSignature(c: ApiCall): (int, char)
  {
    match c
    case CreateQuiz(_) => (21, 'c')
    case GetQuizzes(_, _) => (23, 'f')
    case GetQuizDetails(_) => (28, 'f')
    case DeleteQuiz(_) => (21, 'd')
    case UpdateQuizTitle(_, _) => (27, 'u')
    case DeleteQuestion(_) => (25, 'd')
    case UpdateQuestion(_, _) => (25, 'u')
  }

  /** A rejection says which function failed, and whether for want of a token. */
  lemma FailureMessagesDistinct(c1: ApiCall, c2: ApiCall)
    ensures FailureMessage(c1) != NoTokenMessage
    ensures FailureMessage(c1) == FailureMessage(c2) ==> Kind(c1) == Kind(c2)
  {
    var m1, m2 := FailureMessage(c1), FailureMessage(c2);
    assert m1[0] == 'F' && NoTokenMessage[0] == 'N';
    assert (|m1|, m1[10]) == MessageSignature(c1);
    assert (|m2|, m2[10]) == MessageSignature(c2);
  }
}
