/** The quiz-list page (src/pages/MyQuizzes.tsx): the page-control state, the fetch that fills it,
    and the delete confirmation. Each `fetchQuizzes` is split at its `await` into the part before
    (`ChangePage`, or the refetch of `HandleDelete`) and `CompleteFetch`. */
module MyQuizzes {
  import opened Wrappers
  import opened Api
  import Decimal

  datatype QuizCard = QuizCard(id: int, title: string, topic: string, difficulty: int, numberOfQuestions: int)

  /** The parts of the list response the page reads. */
  datatype PageResponse = PageResponse(items: seq<QuizCard>, pageNumber: int, totalPages: int)

  /** `Array.from({ length: totalPages }, (_, i) => i + 1)`: the buttons 1 to `totalPages`, in order
      (none for a count below 1). */
  function PageButtons(totalPages: int): (r: seq<int>)
    ensures |r| == if totalPages < 0 then 0 else totalPages
    ensures forall i :: 0 <= i < |r| ==> r[i] == i + 1
  {
    if totalPages <= 0 then [] else PageButtons(totalPages - 1) + [totalPages]
  }

  /** The buttons are strictly ascending, and they are exactly the pages from 1 to `totalPages`. */
  lemma PageButtonsExact(totalPages: int, p: int)
    ensures forall i, j :: 0 <= i < j < |PageButtons(totalPages)| ==> PageButtons(totalPages)[i] < PageButtons(totalPages)[j]
    ensures p in PageButtons(totalPages) <==> 1 <= p <= totalPages
  {
    var r := PageButtons(totalPages);
    if 1 <= p <= totalPages {
      assert r[p - 1] == p;
    }
  }

  /** The list request `fetchQuizzes(page)` makes: `getQuizzes(page)`, so a page of 12. */
  function FetchCall(page: int): (c: ApiCall)
    ensures TargetOf(c) == QuizPage(page, 12)
  {
    GetQuizzes(Some(page), None)
  }

  /** Where a card's Edit button goes: the editor's route, then the quiz id, which reads back. */
  function EditPath(id: int): (p: string)
    ensures |p| > 6 && p[..6] == "/edit/"
    ensures Decimal.ParseInt(p[6..]) == Some(id)
  {
    Decimal.IntRoundTrip(id);
    var p := "/edit/" + Decimal.IntToString(id);
    assert p[6..] == Decimal.IntToString(id);
    p
  }

  /** Each card's Edit button leads to its own quiz's editor. */
  lemma EditPathInjective(a: int, b: int)
    ensures EditPath(a) == EditPath(b) <==> a == b
  {
    if EditPath(a) == EditPath(b) {
      IdUrlInjective("/edit/", a, b);
    }
  }

  class MyQuizzesPage {
    var quizzes: seq<QuizCard>
    var currentPage: int
    var totalPages: int
    var isLoading: bool
    var isPageChanging: bool
    var quizToDelete: Option<int>

    /** The first render, with the effect's first fetch under way. */
    constructor ()
      ensures quizzes == [] && currentPage == 1 && totalPages == 1
      ensures isLoading && isPageChanging && quizToDelete == None
    {
      quizzes := [];
      currentPage := 1;
      totalPages := 1;
      isLoading := true;
      isPageChanging := true;
      quizToDelete := None;
    }

    /** `totalPages > 1 && (...)`, inside the branch for a loaded, non-empty list: the controls show
        only over a shown list with at least two page buttons. */
    function ShowPageControls(): bool
      reads this
      ensures ShowPageControls() ==> !isLoading && |quizzes| > 0 && |PageButtons(totalPages)| >= 2
    {
      !isLoading && |quizzes| > 0 && totalPages > 1
    }

    /** The Previous button's `disabled`: always during a page change, and, on a page in range,
        enabled only when the page before has a button. */
    function PreviousDisabled(): bool
      reads this
      ensures isPageChanging ==> PreviousDisabled()
      ensures 1 <= currentPage <= totalPages && !PreviousDisabled() ==> currentPage - 1 in PageButtons(totalPages)
    {
      PageButtonsExact(totalPages, currentPage - 1);
      currentPage == 1 || isPageChanging
    }

    /** The Next button's `disabled`: always during a page change, and, on a page in range,
        enabled only when the page after has a button. */
    function NextDisabled(): bool
      reads this
      ensures isPageChanging ==> NextDisabled()
      ensures 1 <= currentPage <= totalPages && !NextDisabled() ==> currentPage + 1 in PageButtons(totalPages)
    {
      PageButtonsExact(totalPages, currentPage + 1);
      currentPage == totalPages || isPageChanging
    }

    /** The confirmation dialog is open while `quizToDelete` is truthy: a pending quiz, unless its
        id is 0. */
    function DialogOpen(): bool
      reads this
      ensures DialogOpen() ==> quizToDelete.Some?
      ensures quizToDelete == Some(0) ==> !DialogOpen()
    {
      quizToDelete.Some? && quizToDelete.value != 0
    }

    /** What `fetchQuizzes` does once `getQuizzes` settles (`None` when it threw): a response sets
        the list, `totalPages` and `currentPage`; either way loading and the page change end. When
        the server's page number differs from the one shown, the effect on `currentPage` fetches
        that page, and a page change starts again. */
    method CompleteFetch(response: Option<PageResponse>) returns (refetch: Option<ApiCall>)
      modifies this
      ensures response.Some? ==>
                && quizzes == response.value.items && totalPages == response.value.totalPages
                && currentPage == response.value.pageNumber
      ensures response.None? ==> quizzes == old(quizzes) && totalPages == old(totalPages) && currentPage == old(currentPage)
      ensures refetch.Some? <==> currentPage != old(currentPage)
      ensures refetch.Some? ==> refetch.value == FetchCall(currentPage)
      ensures !isLoading && (isPageChanging <==> refetch.Some?) && quizToDelete == old(quizToDelete)
    {
      var previous := currentPage;
      if response.Some? {
        quizzes := response.value.items;
        totalPages := response.value.totalPages;
        currentPage := response.value.pageNumber;
      }
      isLoading := false;
      isPageChanging := false;
      refetch := None;
      if currentPage != previous {
        refetch := Some(FetchCall(currentPage));
        isPageChanging := true;
      }
    }

    /** `handlePageChange`: a new page number fetches that page; the page already shown changes
        nothing, since the effect runs only when `currentPage` changes. */
    method ChangePage(newPage: int) returns (call: Option<ApiCall>)
      modifies this
      ensures currentPage == newPage
      ensures call.Some? <==> newPage != old(currentPage)
      ensures call.Some? ==> call.value == FetchCall(newPage) && isPageChanging
      ensures call.None? ==> isPageChanging == old(isPageChanging)
      ensures quizzes == old(quizzes) && totalPages == old(totalPages) && isLoading == old(isLoading)
      ensures quizToDelete == old(quizToDelete)
    {
      call := None;
      if newPage != currentPage {
        currentPage := newPage;
        call := Some(FetchCall(newPage));
        isPageChanging := true;
      }
    }

    /** A card's delete button asks for confirmation. */
    method RequestDelete(id: int)
      modifies this
      ensures quizToDelete == Some(id)
      ensures quizzes == old(quizzes) && currentPage == old(currentPage) && totalPages == old(totalPages)
      ensures isLoading == old(isLoading) && isPageChanging == old(isPageChanging)
    {
      quizToDelete := Some(id);
    }

    /** Closing the dialog forgets the pending quiz. */
    method CancelDelete()
      modifies this
      ensures quizToDelete == None
      ensures quizzes == old(quizzes) && currentPage == old(currentPage) && totalPages == old(totalPages)
      ensures isLoading == old(isLoading) && isPageChanging == old(isPageChanging)
    {
      quizToDelete := None;
    }

    /** `handleDelete`, given whether `deleteQuiz` resolved: nothing at all without a pending quiz
        (0 counts as none); otherwise the delete call, a refetch of the same page only on success,
        and the pending quiz cleared either way. */
    method HandleDelete(ok: bool) returns (deleteCall: Option<ApiCall>, refetch: Option<ApiCall>)
      modifies this
      ensures !old(DialogOpen()) ==>
                && deleteCall == None && refetch == None
                && quizToDelete == old(quizToDelete) && isPageChanging == old(isPageChanging)
      ensures old(DialogOpen()) ==>
                && deleteCall == Some(DeleteQuiz(old(quizToDelete).value))
                && (refetch.Some? <==> ok)
                && (ok ==> refetch.value == FetchCall(currentPage) && isPageChanging)
                && (!ok ==> isPageChanging == old(isPageChanging))
                && quizToDelete == None
      ensures quizzes == old(quizzes) && currentPage == old(currentPage) && totalPages == old(totalPages)
      ensures isLoading == old(isLoading)
    {
      if !DialogOpen() {
        return None, None;
      }
      deleteCall := Some(DeleteQuiz(quizToDelete.value));
      refetch := None;
      if ok {
        refetch := Some(FetchCall(currentPage));
        isPageChanging := true;
      }
      quizToDelete := None;
    }
  }
}
