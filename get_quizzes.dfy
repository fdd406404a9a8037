/** `GetQuizzesWithPagination` (Features/Quizzes/Get/GetQuizzesWithPagination.cs): the caller's
    quizzes as summaries, one page at a time. The query is read-only. How `PaginatedListAsync`
    cuts a page is not part of this model: the result carries the summaries it pages over and
    the page asked for. */
module GetQuizzes {
  import opened Wrappers
  import opened Errors
  import opened Entities
  import opened Validation
  import opened Store
  import opened Http

  datatype GetQuizzesQuery = GetQuizzesQuery(pageNumber: int, pageSize: int)

  /** `[FromQuery] int pageNumber = 1, [FromQuery] int pageSize = 10`. */
  function QueryFromRoute(pageNumber: Option<int>, pageSize: Option<int>): (q: GetQuizzesQuery)
    ensures q.pageNumber == (if pageNumber.Some? then pageNumber.value else 1)
    ensures q.pageSize == (if pageSize.Some? then pageSize.value else 10)
  {
    GetQuizzesQuery(if pageNumber.Some? then pageNumber.value else 1,
                    if pageSize.Some? then pageSize.value else 10)
  }

  /** `GetQuizzesResponse(Id, Title, Topic, Difficulty, NumberOfQuestions)`. */
  datatype QuizSummary = QuizSummary(id: int, title: string, topic: string, difficulty: Difficulty, numberOfQuestions: int)

  /** What the handler hands to `PaginatedListAsync`: the projected rows, keyed by quiz id (the
      query has no `OrderBy`, so no order is promised), and the page asked for. */
  datatype PageRequest = PageRequest(items: map<int, QuizSummary>, pageNumber: int, pageSize: int)

  const PageNumberMessage := "PageNumber at least greater than or equal to 1."
  const PageSizeMessage := "PageSize at least greater than or equal to 1."

  /** The rules of the validator, with their custom messages. */
  function Failures(query: GetQuizzesQuery): (fs: seq<RuleFailure>)
    ensures fs == [] <==> query.pageNumber >= 1 && query.pageSize >= 1
    ensures RuleFailure("PageNumber", PageNumberMessage) in fs <==> query.pageNumber < 1
    ensures RuleFailure("PageSize", PageSizeMessage) in fs <==> query.pageSize < 1
    ensures query.pageNumber < 1 && query.pageSize >= 1 ==> Details(fs) == PageNumberMessage
    ensures query.pageNumber >= 1 && query.pageSize < 1 ==> Details(fs) == PageSizeMessage
  {
    (if query.pageNumber >= 1 then [] else [RuleFailure("PageNumber", PageNumberMessage)])
    + (if query.pageSize >= 1 then [] else [RuleFailure("PageSize", PageSizeMessage)])
  }

  /** `.Where(q => q.UserId == userId).Select(q => new GetQuizzesResponse(...))`: exactly the
      caller's quizzes, each field copied. */
  function OwnedSummaries(m: map<int, Quiz>, user: UserId): (r: map<int, QuizSummary>)
    ensures forall k :: k in r <==> k in m && m[k].userId == user
    ensures forall k :: k in r ==>
              && k in m
              && r[k].id == k && r[k].title == m[k].title && r[k].topic == m[k].topic
              && r[k].difficulty == m[k].difficulty && r[k].numberOfQuestions == m[k].numberOfQuestions
  {
    map k | k in m && m[k].userId == user :: QuizSummary(k, m[k].title, m[k].topic, m[k].difficulty, m[k].numberOfQuestions)
  }

  /** The handler: a read-only query, so it returns no new database. */
  function GetQuizzes(m: map<int, Quiz>, user: UserId, query: GetQuizzesQuery): (r: Result<PageRequest>)
    ensures Failures(query) != [] ==> r == Failure(ValidationError(Details(Failures(query))))
    ensures r.Success? <==> query.pageNumber >= 1 && query.pageSize >= 1
    ensures r.Success? ==> r.value.pageNumber == query.pageNumber && r.value.pageSize == query.pageSize
    ensures r.Success? ==> r.value.items == OwnedSummaries(m, user)
  {
    if Failures(query) != [] then Failure(ValidationError(Details(Failures(query))))
    else Success(PageRequest(OwnedSummaries(m, user), query.pageNumber, query.pageSize))
  }

  /** The list shows only the caller's quizzes: what other users own, or whether they own
      anything at all, never changes it. */
  lemma ListIsolated(m1: map<int, Quiz>, m2: map<int, Quiz>, user: UserId, query: GetQuizzesQuery)
    requires forall k :: k in m1 && m1[k].userId == user <==> k in m2 && m2[k].userId == user
    requires forall k :: k in m1 && m1[k].userId == user ==> k in m2 && m1[k] == m2[k]
    ensures GetQuizzes(m1, user, query) == GetQuizzes(m2, user, query)
  {
    var a := OwnedSummaries(m1, user);
    var b := OwnedSummaries(m2, user);
    assert forall k :: k in a <==> k in b;
    assert forall k :: k in a ==> a[k] == b[k];
    assert a == b;
  }

  /** Creating a quiz for the caller adds exactly its summary to the list. */
  lemma ListGainsNewQuiz(m: map<int, Quiz>, user: UserId, id: int, quiz: Quiz)
    requires id !in m && quiz.userId == user
    ensures OwnedSummaries(m[id := quiz], user)
              == OwnedSummaries(m, user)[id := QuizSummary(id, quiz.title, quiz.topic, quiz.difficulty, quiz.numberOfQuestions)]
  {
  }

  /** `GET /quizzes`: 200 with the page on success, 400 with the error on an invalid page. */
  function Endpoint(r: Result<PageRequest>): (h: Response<PageRequest>)
    ensures StatusCode(h) == 200 <==> r.Success?
    ensures r.Failure? ==> h == BadRequest(r.error)
  {
    OkOrBadRequest(r)
  }
}
