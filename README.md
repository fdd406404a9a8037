# QuizMasterAI, modelled in Dafny

QuizMasterAI lets a signed-in user generate multiple-choice quizzes with a language model, edit them, and solve them. This project models the system in two halves.

**The back end (ASP.NET minimal API, MediatR handlers, EF Core).**
- The database is a class, `Store.QuizStore`. It holds a map from quiz id to quiz. Each quiz owns its questions, and each question owns its answers. The two identity counters of the Quizzes and Questions tables are fields too, and a `Valid()` invariant keeps ids fresh and unique.
- Each use case has two members, proved equal. One is a pure outcome function from one database snapshot to a `Result` and the next snapshot. The other is a `Handle` method that changes the store.
  - The use cases are create quiz, update title, delete quiz, update question, delete question, list quizzes and quiz details.
  - `Handle`'s `ensures` ties the returned result and the new state to the outcome function.
  - The lemmas state what the source promises about each outcome:
    - the validation rules;
    - whether ownership is checked;
    - the cascade of deletes over the Questions and Answers tables;
    - idempotence, and what a repeated call does;
    - what stays unchanged.
- Errors carry the codes and messages of `Error.cs`.
- The generator's reply is a parameter. The response-to-questions mapper is a pure function over a parsed-JSON datatype.

**The front end (React, TypeScript).**
- The API client is modelled as the headers it builds and the method, URL and body of each call. `Api.RouteInjective` proves that the routes are pairwise distinct.
- Each page keeps its state hooks as the fields of a class, and each handler is a method:
  - quiz solving, with the score of `calculateScore` computed by a loop;
  - the quiz editor, with its list edits as pure functions;
  - the quiz-creation form, with its check chain and rotating placeholder;
  - the quiz list, with its page controls and delete dialog.
- Asynchronous calls are split at their `await`. What a call resolves to (its reply, or whether it succeeded) is a parameter of the method that continues after it.

Behaviours of the source that the model reproduces rather than corrects:
- `DeleteQuiz` reads `quiz!.UserId` before it tests `quiz` for null. A missing id therefore ends in an exception, the `Fault` outcome. The endpoint does not turn that into a 400 or a 404; `Http.StatusCode` reports it as 500.
- `UpdateQuestion` and `DeleteQuestion` never compare the quiz's owner with the caller. `OwnerIgnored` proves the outcome does not depend on the owner.
- `GetQuizDetails` reports the number of questions actually stored, not the quiz's `NumberOfQuestions` field. That field is fixed at creation and kept when a question is deleted.
- Creating a quiz accepts whatever the generator returns, as long as it maps. Neither the count of questions nor one correct answer per question is checked (`GeneratedContentUnchecked`).
- The quiz editor lets a question have several correct answers and sends it. The back end then refuses it with its exactly-one message (`EditQuiz.SecondCorrectRefused`).
- JavaScript's `trim()` keeps NEXT LINE (U+0085), and .NET's `char.IsWhiteSpace` counts it as white space. The creation form can therefore send a title the back end finds blank. `CreateQuizPage.NextLineTitleRefusedByBackend` exhibits one; `CreateQuizPage.SentRequestValid` proves that it is the only gap.
- JavaScript truthiness is modelled as written:
  - an answer id of 0 keeps Next and Submit disabled;
  - a quiz id of 0 shows the quiz list again;
  - a pending quiz id of 0 makes `handleDelete` do nothing.

## Model

| member | source | states |
|---|---|---|
| `Errors.CodeOf` | QuizMasterAI_Backend/QuizMaster/Common/ReturnTypes/Error.cs:5-14 | each error kind's code reads back as that kind, so the seven codes are pairwise distinct |
| `Errors.NoneError` | QuizMasterAI_Backend/QuizMaster/Common/ReturnTypes/Error.cs:5 | `Error.None` has an empty code and an empty message |
| `Errors.NullValueError` | QuizMasterAI_Backend/QuizMaster/Common/ReturnTypes/Error.cs:7 | the null-value error has its own code and its fixed message |
| `Errors.ConditionNotMetError` | QuizMasterAI_Backend/QuizMaster/Common/ReturnTypes/Error.cs:9 | the condition-not-met error has its own code and its fixed message |
| `Errors.NotFoundError` | QuizMasterAI_Backend/QuizMaster/Common/ReturnTypes/Error.cs:11 | the not-found code, with the message exactly as given |
| `Errors.PermissionDeniedError` | QuizMasterAI_Backend/QuizMaster/Common/ReturnTypes/Error.cs:12 | the permission-denied code, with the message exactly as given |
| `Errors.ValidationError` | QuizMasterAI_Backend/QuizMaster/Common/ReturnTypes/Error.cs:13 | the validation code, with the details exactly as given |
| `Errors.ThirdPartyRequestError` | QuizMasterAI_Backend/QuizMaster/Common/ReturnTypes/Error.cs:14 | the external-call code, with the details exactly as given |
| `Errors.FactoriesDistinct` | QuizMasterAI_Backend/QuizMaster/Common/ReturnTypes/Error.cs:11-14 | errors from two different factories never coincide, whatever their messages |
| `Entities.DifficultyValue` | QuizMasterAI_Backend/QuizMaster/Domain/Entities/Quiz.cs:16-21 | every difficulty is stored as an integer from 1 to 3 |
| `Entities.DifficultyFromValue` | QuizMasterAI_Backend/QuizMaster/Domain/Entities/Quiz.cs:16-21 | an integer names a difficulty exactly when it is 1, 2 or 3, and it names the one with that value |
| `Entities.NewQuiz` | QuizMasterAI_Backend/QuizMaster/Domain/Entities/Quiz.cs:3-13 | a new quiz has no questions and carries the owner and fields it is built with |
| `Entities.CorrectCount` | QuizMasterAI_Backend/QuizMaster/Features/Questions/Update/UpdateQuestion.cs:51 | the count of correct answers is at most the number of answers, and is 0 exactly when none is correct |
| `Entities.CorrectCountOne` | QuizMasterAI_Backend/QuizMaster/Features/Questions/Update/UpdateQuestion.cs:51 | a count of 1 is the same as one correct answer with every other incorrect |
| `Entities.CountOneHasWitness` | QuizMasterAI_Backend/QuizMaster/Features/Questions/Update/UpdateQuestion.cs:51 | a count of 1 has a single correct answer as its witness |
| `Entities.WitnessHasCountOne` | QuizMasterAI_Backend/QuizMaster/Features/Questions/Update/UpdateQuestion.cs:51 | a single correct answer makes the count 1 |
| `Validation.Details` | QuizMasterAI_Backend/QuizMaster/Features/Quizzes/Create/CreateQuiz.cs:68-71 | the details of a validation error are empty without failures, and the one failure's text when there is one |
| `Validation.IsWhiteSpace` | QuizMasterAI_Backend/QuizMaster/Features/Quizzes/Create/CreateQuiz.cs:41-42 | .NET white space within Latin-1 is exactly TAB to CR, SPACE, NEXT LINE and NO-BREAK SPACE, and no letter or digit is white space |
| `Validation.NotEmptyString` | QuizMasterAI_Backend/QuizMaster/Features/Quizzes/Create/CreateQuiz.cs:41-42 | `NotEmpty()` on a string holds exactly when some character is not white space, so never for the empty string |
| `Decimal.NatToString` | QuizMasterAI_Frontend/src/services/api.ts:93 | a natural number prints as digits only, with no leading zero |
| `Decimal.IntToString` | QuizMasterAI_Frontend/src/services/api.ts:93 | an integer prints as digits, led by a minus sign exactly when negative |
| `Decimal.NatRoundTrip` | QuizMasterAI_Frontend/src/services/api.ts:93 | the digits of a natural number denote that number |
| `Decimal.IntRoundTrip` | QuizMasterAI_Frontend/src/services/api.ts:93 | reading back a printed integer gives the integer |
| `Decimal.IntToStringInjective` | QuizMasterAI_Backend/QuizMaster/Features/Questions/Update/UpdateQuestion.cs:84 | different integers print differently |
| `QuestionsMapper.LastMember` | QuizMasterAI_Backend/QuizMaster/Features/Quizzes/Create/QuestionsMapper.cs:13 | a property lookup fails exactly when no member has that name, and otherwise returns the value of a member with that name |
| `QuestionsMapper.GetProperty` | QuizMasterAI_Backend/QuizMaster/Features/Quizzes/Create/QuestionsMapper.cs:13-21 | `GetProperty` fails exactly on a value that is not an object or has no member of that name, and otherwise returns the value of such a member |
| `QuestionsMapper.EnumerateArray` | QuizMasterAI_Backend/QuizMaster/Features/Quizzes/Create/QuestionsMapper.cs:13-17 | `EnumerateArray` succeeds exactly on a JSON array, and yields its elements |
| `QuestionsMapper.GetString` | QuizMasterAI_Backend/QuizMaster/Features/Quizzes/Create/QuestionsMapper.cs:16-20 | `GetString` succeeds exactly on a JSON string, and yields its text |
| `QuestionsMapper.GetBoolean` | QuizMasterAI_Backend/QuizMaster/Features/Quizzes/Create/QuestionsMapper.cs:21 | `GetBoolean` succeeds exactly on `true` or `false`, and yields that value |
| `QuestionsMapper.MapAnswer` | QuizMasterAI_Backend/QuizMaster/Features/Quizzes/Create/QuestionsMapper.cs:18-22 | an answer maps exactly when it has a string "text" and a boolean "isCorrect", and the answer carries those two values |
| `QuestionsMapper.MapQuestion` | QuizMasterAI_Backend/QuizMaster/Features/Quizzes/Create/QuestionsMapper.cs:14-23 | a question without a string "text" or an "answers" array fails; a mapped question has that text and one answer per element of "answers", each its mapping |
| `QuestionsMapper.DeserializeQuestions` | QuizMasterAI_Backend/QuizMaster/Features/Quizzes/Create/QuestionsMapper.cs:9-25 | the mapping succeeds exactly when the first content part has a "questions" array whose every element maps, and then gives one question per element, in order |
| `QuestionsMapper.MapAll` | QuizMasterAI_Backend/QuizMaster/Features/Quizzes/Create/QuestionsMapper.cs:13-23 | a `Select(...).ToList()` whose selector may throw succeeds exactly when every element maps, and then gives one result per element, in order |
| `QuestionsMapper.DeserializeShape` | QuizMasterAI_Backend/QuizMaster/Features/Quizzes/Create/QuestionsMapper.cs:13-23 | a successful mapping has one question per element of "questions", in order; each question's text is the element's "text", and its answers match "answers" element for element, text and flag |
| `QuestionsMapper.MissingFieldFails` | QuizMasterAI_Backend/QuizMaster/Features/Quizzes/Create/QuestionsMapper.cs:13-21 | a question without a string "text", or an answer without a string "text" or a boolean "isCorrect", makes the mapping fail instead of defaulting |
| `QuestionsMapper.OnlyFirstPartParsed` | QuizMasterAI_Backend/QuizMaster/Features/Quizzes/Create/QuestionsMapper.cs:11 | content parts after the first never change the result |
| `QuestionsMapper.EmptyQuestionsArray` | QuizMasterAI_Backend/QuizMaster/Features/Quizzes/Create/QuestionsMapper.cs:13-23 | an empty "questions" array maps to no questions |
| `Store.WithoutQuestion` | QuizMasterAI_Backend/QuizMaster/Features/Questions/Delete/DeleteQuestion.cs:64 | removing a question keeps exactly the other questions, drops its id from the list's ids, and keeps ids distinct |
| `Store.Replacing` | QuizMasterAI_Backend/QuizMaster/Features/Questions/Update/UpdateQuestion.cs:88-94 | replacing a question's text and answers keeps the length and the ids, and changes only the question with that id |
| `Store.AssignIds` | QuizMasterAI_Backend/QuizMaster/Features/Quizzes/Create/CreateQuiz.cs:91-95 | the stored questions are the drafts, in order, under distinct consecutive fresh ids |
| `Store.WithoutAbsent` | QuizMasterAI_Backend/QuizMaster/Features/Questions/Delete/DeleteQuestion.cs:64 | removing an id the list lacks changes nothing |
| `Store.WithoutAt` | QuizMasterAI_Backend/QuizMaster/Features/Questions/Delete/DeleteQuestion.cs:64 | with distinct ids, removing the id of question i removes exactly position i |
| `Store.ReplacingAt` | QuizMasterAI_Backend/QuizMaster/Features/Questions/Update/UpdateQuestion.cs:88-94 | with distinct ids, replacing the id of question i changes exactly position i |
| `Store.DistinctAt` | QuizMasterAI_Backend/QuizMaster/Features/Questions/Update/UpdateQuestion.cs:74-76 | two positions of a list with distinct ids hold different ids |
| `Store.ReplacingAbsent` | QuizMasterAI_Backend/QuizMaster/Features/Questions/Update/UpdateQuestion.cs:88-94 | replacing an id the list lacks changes nothing |
| `Store.RemoveQuestion` | QuizMasterAI_Backend/QuizMaster/Features/Questions/Delete/DeleteQuestion.cs:64-66 | deleting a question keeps every quiz, under the same keys |
| `Store.ReplaceQuestion` | QuizMasterAI_Backend/QuizMaster/Features/Questions/Update/UpdateQuestion.cs:88-96 | updating a question keeps every quiz and every quiz field other than its questions |
| `Store.RemoveQuiz` | QuizMasterAI_Backend/QuizMaster/Features/Quizzes/Delete/DeleteQuiz.cs:48-50 | deleting a quiz removes exactly that key and keeps every other quiz as it was |
| `Store.SetTitle` | QuizMasterAI_Backend/QuizMaster/Features/Quizzes/Update/UpdateTitle.cs:73-75 | renaming keeps the keys |
| `Store.QuestionExists` | QuizMasterAI_Backend/QuizMaster/Features/Questions/Update/UpdateQuestion.cs:74-79 | the two lookups of the question handlers succeed exactly when the id is among the question ids of the Questions table |
| `Store.RemoveQuestionEffect` | QuizMasterAI_Backend/QuizMaster/Infrastructure/Persistence/Configurations/QuestionConfiguration.cs:11-14 | deleting a question removes its row and, by cascade, its answer rows, and keeps every other question and answer row |
| `Store.ReplacingMembers` | QuizMasterAI_Backend/QuizMaster/Features/Questions/Update/UpdateQuestion.cs:88-94 | after a replacement, a quiz holds its other questions and, if it had the id, the new version of that question |
| `Store.ReplaceQuestionIds` | QuizMasterAI_Backend/QuizMaster/Features/Questions/Update/UpdateQuestion.cs:88-96 | updating a question keeps the set of question ids |
| `Store.ReplaceQuestionRows` | QuizMasterAI_Backend/QuizMaster/Features/Questions/Update/UpdateQuestion.cs:88-96 | updating a question keeps every other question row, and the updated row holds the new text and answers |
| `Store.ReplaceAnswerRows` | QuizMasterAI_Backend/QuizMaster/Features/Questions/Update/UpdateQuestion.cs:90-94 | the answers of the updated question are replaced wholesale; other questions' answer rows remain |
| `Store.RemoveQuizCascade` | QuizMasterAI_Backend/QuizMaster/Infrastructure/Persistence/Configurations/QuizConfiguration.cs:11-14 | deleting a quiz removes its question rows and their answer rows, and keeps every row of other quizzes |
| `Store.SetTitleEffect` | QuizMasterAI_Backend/QuizMaster/Features/Quizzes/Update/UpdateTitle.cs:73 | renaming changes that quiz's title only, and renaming twice equals renaming once |
| `Store.RemoveQuestionKeepsValid` | QuizMasterAI_Backend/QuizMaster/Features/Questions/Delete/DeleteQuestion.cs:64-66 | deleting a question keeps the store invariant |
| `Store.ReplaceQuestionKeepsValid` | QuizMasterAI_Backend/QuizMaster/Features/Questions/Update/UpdateQuestion.cs:88-96 | updating a question keeps the store invariant |
| `Store.InsertKeepsValid` | QuizMasterAI_Backend/QuizMaster/Features/Quizzes/Create/CreateQuiz.cs:93-95 | storing a created quiz under the next id, with freshly numbered questions, keeps the store invariant |
| `Store.InsertIds` | QuizMasterAI_Backend/QuizMaster/Features/Quizzes/Create/CreateQuiz.cs:93-95 | a quiz whose question ids lie in the next block of identity values can be added without clashing |
| `Store.RemoveQuizKeepsValid` | QuizMasterAI_Backend/QuizMaster/Features/Quizzes/Delete/DeleteQuiz.cs:48-50 | deleting a quiz keeps the store invariant |
| `Store.SetTitleKeepsValid` | QuizMasterAI_Backend/QuizMaster/Features/Quizzes/Update/UpdateTitle.cs:73-75 | a non-blank rename keeps the store invariant |
| `Store.ReplaceAtPosition` | QuizMasterAI_Backend/QuizMaster/Features/Questions/Update/UpdateQuestion.cs:74-94 | with ids unique across the store, updating by id is updating the one question found |
| `Store.RemoveAtPosition` | QuizMasterAI_Backend/QuizMaster/Features/Questions/Delete/DeleteQuestion.cs:53-64 | with ids unique across the store, deleting by id is deleting the one question found |
| `Store.Inserted` | QuizMasterAI_Backend/QuizMaster/Features/Quizzes/Create/CreateQuiz.cs:91-95 | a created quiz appears under the next quiz id, with the built fields and one question per draft; other quizzes are unchanged and the counters advance |
| `Store.QuizStore.constructor` | QuizMasterAI_Backend/QuizMaster/Infrastructure/Persistence/ApplicationDbContext.cs:9-11 | an empty database, with both identity counters at 1 |
| `Store.QuizStore.FindQuestion` | QuizMasterAI_Backend/QuizMaster/Features/Questions/Update/UpdateQuestion.cs:74-79 | the lookup finds a position that holds the id exactly when some quiz has a question with that id |
| `Store.QuizStore.QuestionExistsAt` | QuizMasterAI_Backend/QuizMaster/Features/Questions/Delete/DeleteQuestion.cs:53-59 | the store test for a question id agrees with the snapshot predicate |
| `Store.QuizStore.AddQuiz` | QuizMasterAI_Backend/QuizMaster/Features/Quizzes/Create/CreateQuiz.cs:93-95 | adding and saving stores the quiz under a fresh id and leaves the snapshot `Inserted` describes |
| `Store.QuizStore.DeleteQuizRow` | QuizMasterAI_Backend/QuizMaster/Features/Quizzes/Delete/DeleteQuiz.cs:48-50 | removing and saving leaves the quizzes `RemoveQuiz` describes, counters unchanged |
| `Store.QuizStore.AssignTitle` | QuizMasterAI_Backend/QuizMaster/Features/Quizzes/Update/UpdateTitle.cs:73-75 | assigning and saving leaves the quizzes `SetTitle` describes |
| `Store.QuizStore.DeleteQuestionAt` | QuizMasterAI_Backend/QuizMaster/Features/Questions/Delete/DeleteQuestion.cs:64-66 | removing the found question and saving leaves the quizzes `RemoveQuestion` describes |
| `Store.QuizStore.ReplaceQuestionAt` | QuizMasterAI_Backend/QuizMaster/Features/Questions/Update/UpdateQuestion.cs:88-96 | overwriting the found question's text and answers and saving leaves the quizzes `ReplaceQuestion` describes |
| `Http.StatusCode` | QuizMasterAI_Backend/QuizMaster/Features/Quizzes/Create/CreateQuiz.cs:21-23 | every response has a status from 200 to 500, and it is below 300 exactly for the success responses |
| `Http.CreatedOrBadRequest` | QuizMasterAI_Backend/QuizMaster/Features/Quizzes/Create/CreateQuiz.cs:21-23 | 201 with the location exactly on success; a failure is a 400 carrying the error |
| `Http.NoContentOrBadRequest` | QuizMasterAI_Backend/QuizMaster/Features/Quizzes/Delete/DeleteQuiz.cs:18-20 | 204 exactly on success; a failure is a 400 carrying the error |
| `Http.EmptyOkOrBadRequest` | QuizMasterAI_Backend/QuizMaster/Features/Questions/Update/UpdateQuestion.cs:23-25 | 200 without a body exactly on success; a failure is a 400 carrying the error |
| `Http.OkOrBadRequest` | QuizMasterAI_Backend/QuizMaster/Features/Quizzes/Get/GetQuizzesWithPagination.cs:22-24 | 200 with the value exactly on success; a failure is a 400 carrying the error |
| `Http.OkOrNotFound` | QuizMasterAI_Backend/QuizMaster/Features/Quizzes/GetDetails/GetQuizDetails.cs:20-22 | 200 with the value exactly on success; every failure is a 404 carrying the error |
| `CreateQuiz.Failures` | QuizMasterAI_Backend/QuizMaster/Features/Quizzes/Create/CreateQuiz.cs:41-48 | the validator reports no failure exactly when title and topic are non-blank, the difficulty is 1 to 3 and the count is 1 to 25 |
| `CreateQuiz.ValidCommand` | QuizMasterAI_Backend/QuizMaster/Features/Quizzes/Create/CreateQuiz.cs:41-48 | a command the validator accepts has a non-empty title and topic and a difficulty that names an enum member |
| `CreateQuiz.TextFailures` | QuizMasterAI_Backend/QuizMaster/Features/Quizzes/Create/CreateQuiz.cs:41-42 | title and topic are each reported exactly when blank, with the built-in message |
| `CreateQuiz.RangeFailures` | QuizMasterAI_Backend/QuizMaster/Features/Quizzes/Create/CreateQuiz.cs:43-48 | difficulty and count are each reported exactly when out of range |
| `CreateQuiz.ZeroDifficultyFailsTwice` | QuizMasterAI_Backend/QuizMaster/Features/Quizzes/Create/CreateQuiz.cs:43-45 | a difficulty of 0 fails both `IsInEnum` and `NotEmpty` |
| `CreateQuiz.GeneratorRequest` | QuizMasterAI_Backend/QuizMaster/Features/Quizzes/Create/CreateQuiz.cs:86-87 | the generator is asked for the command's topic, difficulty value and count |
| `CreateQuiz.CreateOutcome` | QuizMasterAI_Backend/QuizMaster/Features/Quizzes/Create/CreateQuiz.cs:66-108 | an invalid command fails validation with the store unchanged; a failed generation, mapping or save fails with the external-call error and no quiz added; success exactly when all three succeed; never a fault |
| `CreateQuiz.CreateOutcomeStores` | QuizMasterAI_Backend/QuizMaster/Features/Quizzes/Create/CreateQuiz.cs:75-95 | a successful create commits the quiz built from the command, owned by the caller, with the mapped questions |
| `CreateQuiz.CreateSuccessShape` | QuizMasterAI_Backend/QuizMaster/Features/Quizzes/Create/CreateQuiz.cs:75-108 | on success the returned id is the new quiz's, its fields come from the command, its questions are the mapper's output and every other quiz is unchanged |
| `CreateQuiz.CreateKeepsValid` | QuizMasterAI_Backend/QuizMaster/Features/Quizzes/Create/CreateQuiz.cs:89-95 | a create keeps the store invariant, and its id was free before |
| `CreateQuiz.Handle` | QuizMasterAI_Backend/QuizMaster/Features/Quizzes/Create/CreateQuiz.cs:61-110 | the handler calls the generator only for a valid command, with `GeneratorRequest`, and its result and new store are those of `CreateOutcome` |
| `CreateQuiz.Endpoint` | QuizMasterAI_Backend/QuizMaster/Features/Quizzes/Create/CreateQuiz.cs:17-23 | `POST /quizzes` answers 201 at "/quizzes" exactly on success, otherwise 400 with the error |
| `CreateQuiz.GeneratedContentUnchecked` | QuizMasterAI_Backend/QuizMaster/Features/Quizzes/Create/CreateQuiz.cs:89-95 | any reply that maps is stored, whatever its question count and however many answers are correct |
| `UpdateTitle.Failures` | QuizMasterAI_Backend/QuizMaster/Features/Quizzes/Update/UpdateTitle.cs:38-42 | no failure exactly when the id is positive and the title non-blank; each rule reported exactly when broken |
| `UpdateTitle.UpdateTitleOutcome` | QuizMasterAI_Backend/QuizMaster/Features/Quizzes/Update/UpdateTitle.cs:54-77 | validation failure, then not-found unless the caller owns the quiz, each with the store unchanged; success changes that quiz's title only |
| `UpdateTitle.UpdateTitleKeepsValid` | QuizMasterAI_Backend/QuizMaster/Features/Quizzes/Update/UpdateTitle.cs:73-75 | renaming keeps the store invariant |
| `UpdateTitle.UpdateTitleIdempotent` | QuizMasterAI_Backend/QuizMaster/Features/Quizzes/Update/UpdateTitle.cs:73 | the same rename twice gives the store of one rename, with the same result |
| `UpdateTitle.ForeignQuizUntouched` | QuizMasterAI_Backend/QuizMaster/Features/Quizzes/Update/UpdateTitle.cs:64-71 | another user's quiz is never renamed, and the caller gets only a failure |
| `UpdateTitle.Handle` | QuizMasterAI_Backend/QuizMaster/Features/Quizzes/Update/UpdateTitle.cs:51-78 | the handler's result and new store are those of `UpdateTitleOutcome` |
| `UpdateTitle.Endpoint` | QuizMasterAI_Backend/QuizMaster/Features/Quizzes/Update/UpdateTitle.cs:15-21 | `PATCH /quizzes/{id}/title` answers 204 exactly on success, otherwise 400 with the error |
| `DeleteQuiz.DeleteQuizOutcome` | QuizMasterAI_Backend/QuizMaster/Features/Quizzes/Delete/DeleteQuiz.cs:38-54 | a missing id faults on the null dereference and another user's quiz is not found, both with the store unchanged; success exactly for an owned quiz, which is removed |
| `DeleteQuiz.DeleteQuizCascade` | QuizMasterAI_Backend/QuizMaster/Features/Quizzes/Delete/DeleteQuiz.cs:48-50 | deleting an owned quiz takes its question and answer rows and keeps every other row |
| `DeleteQuiz.DeleteTwice` | QuizMasterAI_Backend/QuizMaster/Features/Quizzes/Delete/DeleteQuiz.cs:40-46 | a second delete of the same id faults instead of succeeding |
| `DeleteQuiz.DeleteFailureUnchanged` | QuizMasterAI_Backend/QuizMaster/Features/Quizzes/Delete/DeleteQuiz.cs:43-46 | every outcome other than success leaves the store as it was |
| `DeleteQuiz.Handle` | QuizMasterAI_Backend/QuizMaster/Features/Quizzes/Delete/DeleteQuiz.cs:36-55 | the handler's result and new store are those of `DeleteQuizOutcome` |
| `DeleteQuiz.Endpoint` | QuizMasterAI_Backend/QuizMaster/Features/Quizzes/Delete/DeleteQuiz.cs:14-20 | `DELETE /quizzes/{id}` answers 204 exactly on success, 400 on a failure, and 500 on the fault |
| `DeleteQuestion.Failures` | QuizMasterAI_Backend/QuizMaster/Features/Questions/Delete/DeleteQuestion.cs:35 | no failure exactly for a positive id; otherwise the one built-in failure on `Id` |
| `DeleteQuestion.DeleteQuestionOutcome` | QuizMasterAI_Backend/QuizMaster/Features/Questions/Delete/DeleteQuestion.cs:43-68 | validation failure, then not-found when no quiz holds the question, each with the store unchanged; success exactly otherwise, with the question removed |
| `DeleteQuestion.DeleteQuestionEffect` | QuizMasterAI_Backend/QuizMaster/Features/Questions/Delete/DeleteQuestion.cs:64-66 | success removes the question's row and its answer rows and nothing else, and keeps the store invariant |
| `DeleteQuestion.DeleteQuestionShrinksQuiz` | QuizMasterAI_Backend/QuizMaster/Features/Questions/Delete/DeleteQuestion.cs:64-66 | the parent quiz loses exactly that question, and its stored count and other fields stay |
| `DeleteQuestion.DeleteQuestionTwice` | QuizMasterAI_Backend/QuizMaster/Features/Questions/Delete/DeleteQuestion.cs:53-62 | deleting the same id again is not found |
| `DeleteQuestion.OwnerIgnored` | QuizMasterAI_Backend/QuizMaster/Features/Questions/Delete/DeleteQuestion.cs:39-41 | the outcome does not depend on who owns the quiz |
| `DeleteQuestion.Handle` | QuizMasterAI_Backend/QuizMaster/Features/Questions/Delete/DeleteQuestion.cs:43-69 | the handler's result and new store are those of `DeleteQuestionOutcome` |
| `DeleteQuestion.Endpoint` | QuizMasterAI_Backend/QuizMaster/Features/Questions/Delete/DeleteQuestion.cs:14-20 | `DELETE /questions/{id}` answers 204 exactly on success, otherwise 400 with the error |
| `UpdateQuestion.ToAnswers` | QuizMasterAI_Backend/QuizMaster/Features/Questions/Update/UpdateQuestion.cs:92 | the new answers copy the request's answers field by field, in order |
| `UpdateQuestion.Failures` | QuizMasterAI_Backend/QuizMaster/Features/Questions/Update/UpdateQuestion.cs:48-52 | no failure exactly when the text is non-blank and exactly one answer is correct; the custom message appears exactly when that count is not 1, including for no answers |
| `UpdateQuestion.NotFoundNamesId` | QuizMasterAI_Backend/QuizMaster/Features/Questions/Update/UpdateQuestion.cs:84 | the not-found message names the id, so different ids give different messages |
| `UpdateQuestion.NotFoundMessage` | QuizMasterAI_Backend/QuizMaster/Features/Questions/Update/UpdateQuestion.cs:84 | the message has the fixed start and end, and the id reads back from between them |
| `UpdateQuestion.UpdateQuestionOutcome` | QuizMasterAI_Backend/QuizMaster/Features/Questions/Update/UpdateQuestion.cs:63-98 | validation failure, then not-found when no quiz holds the question, each with the store unchanged; on success the result is the id and the question is replaced |
| `UpdateQuestion.UpdateQuestionEffect` | QuizMasterAI_Backend/QuizMaster/Features/Questions/Update/UpdateQuestion.cs:88-98 | after success that question has the new text and exactly the new answers, which have exactly one correct; every other question and quiz field is unchanged, and the invariant holds |
| `UpdateQuestion.OwnerIgnored` | QuizMasterAI_Backend/QuizMaster/Features/Questions/Update/UpdateQuestion.cs:67-79 | the outcome does not depend on who owns the quiz |
| `UpdateQuestion.Handle` | QuizMasterAI_Backend/QuizMaster/Features/Questions/Update/UpdateQuestion.cs:63-99 | the handler's result and new store are those of `UpdateQuestionOutcome` |
| `UpdateQuestion.Endpoint` | QuizMasterAI_Backend/QuizMaster/Features/Questions/Update/UpdateQuestion.cs:16-25 | a body id that differs from the route id is refused with 400 before dispatch and the store is unchanged; otherwise the handler runs and its result maps to 200 or 400 |
| `GetQuizzes.QueryFromRoute` | QuizMasterAI_Backend/QuizMaster/Features/Quizzes/Get/GetQuizzesWithPagination.cs:18 | an omitted page number is 1 and an omitted page size is 10 |
| `GetQuizzes.Failures` | QuizMasterAI_Backend/QuizMaster/Features/Quizzes/Get/GetQuizzesWithPagination.cs:41-45 | no failure exactly when both are at least 1; each custom message appears exactly when its bound is broken, and alone it is the whole details text |
| `GetQuizzes.OwnedSummaries` | QuizMasterAI_Backend/QuizMaster/Features/Quizzes/Get/GetQuizzesWithPagination.cs:67-70 | the listed quizzes are exactly the caller's, each with its id, title, topic, difficulty and stored count |
| `GetQuizzes.GetQuizzes` | QuizMasterAI_Backend/QuizMaster/Features/Quizzes/Get/GetQuizzesWithPagination.cs:54-73 | an invalid page is a validation failure; otherwise the caller's summaries go to the paging step with the page asked for |
| `GetQuizzes.ListIsolated` | QuizMasterAI_Backend/QuizMaster/Features/Quizzes/Get/GetQuizzesWithPagination.cs:69 | other users' quizzes never change the caller's list |
| `GetQuizzes.ListGainsNewQuiz` | QuizMasterAI_Backend/QuizMaster/Features/Quizzes/Get/GetQuizzesWithPagination.cs:69-70 | a quiz created for the caller adds exactly its summary to the list |
| `GetQuizzes.Endpoint` | QuizMasterAI_Backend/QuizMaster/Features/Quizzes/Get/GetQuizzesWithPagination.cs:18-24 | `GET /quizzes` answers 200 exactly on success, otherwise 400 with the error |
| `GetQuizDetails.ToDtos` | QuizMasterAI_Backend/QuizMaster/Features/Quizzes/GetDetails/GetQuizDetails.cs:56 | one DTO per question, in order, with its id, text and answers |
| `GetQuizDetails.GetQuizDetails` | QuizMasterAI_Backend/QuizMaster/Features/Quizzes/GetDetails/GetQuizDetails.cs:40-66 | found exactly when the caller owns the quiz, else "Quiz not found."; title, topic and difficulty are the stored ones, the count is the number of questions, and every question is listed |
| `GetQuizDetails.CountFollowsDeletion` | QuizMasterAI_Backend/QuizMaster/Features/Quizzes/GetDetails/GetQuizDetails.cs:62 | after a question is deleted the reported count drops by one while the stored count stays |
| `GetQuizDetails.ForeignLooksMissing` | QuizMasterAI_Backend/QuizMaster/Features/Quizzes/GetDetails/GetQuizDetails.cs:44-54 | another user's quiz reads exactly like a missing one |
| `GetQuizDetails.Endpoint` | QuizMasterAI_Backend/QuizMaster/Features/Quizzes/GetDetails/GetQuizDetails.cs:16-22 | `GET /quizzes/{id}` answers 200 exactly on success, otherwise 404 with the error |
| `Api.DifficultyName` | QuizMasterAI_Frontend/src/services/api.ts:159-163 | a number has a name exactly when it is 1, 2 or 3 |
| `Api.DifficultyNumber` | QuizMasterAI_Frontend/src/services/api.ts:165-169 | a name has a number exactly when it is Easy, Medium or Hard, and the number is 1 to 3 |
| `Api.DifficultyTablesInverse` | QuizMasterAI_Frontend/src/services/api.ts:159-169 | a number names a difficulty exactly when the name maps back to that number |
| `Api.GetHeaders` | QuizMasterAI_Frontend/src/services/api.ts:45-57 | no token, or an empty one, is refused with "No authentication token found"; otherwise two headers, `Authorization: Bearer <token>` and the JSON content type |
| `Api.TargetOf` | QuizMasterAI_Frontend/src/services/api.ts:75 | `getQuizzes` asks for page 1 and size 12 unless told otherwise |
| `Api.QuizUrl` | QuizMasterAI_Frontend/src/services/api.ts:93 | the URL of one quiz lies under `base + "/quizzes/"` and goes on past it; `Api.IdUrlInjective` shows the id reads back |
| `Api.QuestionUrl` | QuizMasterAI_Frontend/src/services/api.ts:131 | the URL of one question lies under `base + "/questions/"` and goes on past it; `Api.IdUrlInjective` shows the id reads back |
| `Api.PageUrl` | QuizMasterAI_Frontend/src/services/api.ts:78 | the list URL is the collection path followed by the page query; `Api.PageUrlInjective` shows it determines both numbers |
| `Api.Route` | QuizMasterAI_Frontend/src/services/api.ts:62-148 | every URL lies under `API_URL`; the GETs are exactly the list and the details, and the DELETEs exactly the two deletions |
| `Api.BodyOf` | QuizMasterAI_Frontend/src/services/api.ts:65-150 | exactly the GET and DELETE calls send no body; `createQuiz` sends its data |
| `Api.Send` | QuizMasterAI_Frontend/src/services/api.ts:60-156 | a call is refused exactly when the headers are; otherwise it sends its route, the headers and its body |
| `Api.PageUrlInjective` | QuizMasterAI_Frontend/src/services/api.ts:78 | the list URL determines its page number and page size |
| `Api.IdUrlInjective` | QuizMasterAI_Frontend/src/services/api.ts:93 | a per-id URL determines its id |
| `Api.RouteInjective` | QuizMasterAI_Frontend/src/services/api.ts:62-147 | two targets share a method and URL exactly when they are the same target |
| `Api.SameRequestSameTarget` | QuizMasterAI_Frontend/src/services/api.ts:60-156 | two calls that send the same method and URL address the same target |
| `Api.Invoke` | QuizMasterAI_Frontend/src/services/api.ts:60-156 | a call rejects without a token, rejects with its own message on a reply that is not ok, and otherwise resolves, with the JSON exactly for the calls that read it |
| `Api.FailureMessage` | QuizMasterAI_Frontend/src/services/api.ts:68-155 | every rejection for a failed reply starts "Failed to " and is never the missing-token message |
| `Api.FailureMessagesDistinct` | QuizMasterAI_Frontend/src/services/api.ts:68-155 | the rejection message tells which function failed and is never the missing-token message |
| `SolveQuiz.FindById` | QuizMasterAI_Frontend/src/pages/SolveQuiz.tsx:90 | no result exactly when no answer has the id; otherwise the first answer with it |
| `SolveQuiz.ScoreBounds` | QuizMasterAI_Frontend/src/pages/SolveQuiz.tsx:86-96 | 0 ≤ score ≤ answered entries ≤ entries |
| `SolveQuiz.FullScore` | QuizMasterAI_Frontend/src/pages/SolveQuiz.tsx:86-96 | full marks exactly when every entry picks a correct answer |
| `SolveQuiz.WriteEntry` | QuizMasterAI_Frontend/src/pages/SolveQuiz.tsx:73-75 | the written entry holds the id, every other entry keeps its value, and a write past the end leaves holes |
| `SolveQuiz.AnswerEnablesAdvance` | QuizMasterAI_Frontend/src/pages/SolveQuiz.tsx:334-342 | answering the current question enables Next and Submit exactly for an id other than 0, and entries never outnumber questions |
| `SolveQuiz.Truthy` | QuizMasterAI_Frontend/src/pages/SolveQuiz.tsx:334 | a truthy entry is a recorded answer, and an entry holding the id 0 is never truthy |
| `SolveQuiz.SolveQuizPage.constructor` | QuizMasterAI_Frontend/src/pages/SolveQuiz.tsx:25-31 | the initial state: no quiz, question 0, no answers, no results, loading |
| `SolveQuiz.SolveQuizPage.CurrentScreen` | QuizMasterAI_Frontend/src/pages/SolveQuiz.tsx:107-142 | the solving screen shows only when loaded, with a truthy quiz id and no results |
| `SolveQuiz.SolveQuizPage.OnLastQuestion` | QuizMasterAI_Frontend/src/pages/SolveQuiz.tsx:331 | in a valid state, Submit replaces Next exactly when no question follows the current one, and never for a quiz without questions |
| `SolveQuiz.SolveQuizPage.AdvanceEnabled` | QuizMasterAI_Frontend/src/pages/SolveQuiz.tsx:334-342 | Next and Submit are enabled only once an answer to the current question is recorded, and then that question exists |
| `SolveQuiz.SolveQuizPage.FinishListLoad` | QuizMasterAI_Frontend/src/pages/SolveQuiz.tsx:44-46 | the end of the list fetch clears loading and changes nothing else |
| `SolveQuiz.SolveQuizPage.SelectQuiz` | QuizMasterAI_Frontend/src/pages/SolveQuiz.tsx:52-70 | a quiz that loads starts at question 0 with no answers and no results; a failed load changes nothing but loading |
| `SolveQuiz.SolveQuizPage.SelectAnswer` | QuizMasterAI_Frontend/src/pages/SolveQuiz.tsx:72-76 | the current question's entry becomes the id and every other entry stays |
| `SolveQuiz.SolveQuizPage.Next` | QuizMasterAI_Frontend/src/pages/SolveQuiz.tsx:78-84 | forward below the last question, otherwise the results; the index stays within the questions |
| `SolveQuiz.SolveQuizPage.CalculateScore` | QuizMasterAI_Frontend/src/pages/SolveQuiz.tsx:86-96 | the loop's score counts the entries whose picked answer is correct, and is bounded by the answered entries |
| `SolveQuiz.SolveQuizPage.Submit` | QuizMasterAI_Frontend/src/pages/SolveQuiz.tsx:98-105 | the submitted score is that count, and the results show |
| `SolveQuiz.SolveQuizPage.TryAgain` | QuizMasterAI_Frontend/src/pages/SolveQuiz.tsx:259-263 | the same quiz restarts at question 0 with no answers and no results |
| `SolveQuiz.SolveQuizPage.ChooseAnother` | QuizMasterAI_Frontend/src/pages/SolveQuiz.tsx:269 | back to the list with nothing else changed |
| `JsText.Leading` | QuizMasterAI_Frontend/src/pages/CreateQuiz.tsx:44 | the length of the white-space run that starts the string |
| `JsText.Trailing` | QuizMasterAI_Frontend/src/pages/CreateQuiz.tsx:44 | the length of the white-space run that ends the string |
| `JsText.Trim` | QuizMasterAI_Frontend/src/pages/CreateQuiz.tsx:83-84 | `trim()` is empty exactly for an all-white-space string; otherwise a slice that neither starts nor ends with white space, with only white space cut |
| `JsText.TrimIdempotent` | QuizMasterAI_Frontend/src/pages/EditQuiz.tsx:63 | trimming twice trims nothing more |
| `EditQuiz.FromDetails` | QuizMasterAI_Frontend/src/pages/EditQuiz.tsx:41-43 | the page holds the loaded questions one for one, with their ids, texts and answers |
| `EditQuiz.NewQuestionTemplate` | QuizMasterAI_Frontend/src/pages/EditQuiz.tsx:31-34 | four answers, each with empty text and not correct |
| `EditQuiz.DeleteLocal` | QuizMasterAI_Frontend/src/pages/EditQuiz.tsx:80 | the remaining questions are exactly those with another id |
| `EditQuiz.DeleteLocalAppend` | QuizMasterAI_Frontend/src/pages/EditQuiz.tsx:80 | the filter works piece by piece, so the rest keep their order |
| `EditQuiz.DeleteLocalAbsent` | QuizMasterAI_Frontend/src/pages/EditQuiz.tsx:80 | deleting an id the list lacks changes nothing |
| `EditQuiz.EditText` | QuizMasterAI_Frontend/src/pages/EditQuiz.tsx:161-166 | only the questions of that id get the text, with everything else kept |
| `EditQuiz.EditAnswerAt` | QuizMasterAI_Frontend/src/pages/EditQuiz.tsx:222-226 | only answer `index` changes |
| `EditQuiz.EditAnswerText` | QuizMasterAI_Frontend/src/pages/EditQuiz.tsx:217-229 | only answer `index` of the questions of that id gets the text |
| `EditQuiz.ToggleCorrect` | QuizMasterAI_Frontend/src/pages/EditQuiz.tsx:234-246 | only answer `index` of the questions of that id flips its flag, and no other answer is touched |
| `EditQuiz.ToggleTwice` | QuizMasterAI_Frontend/src/pages/EditQuiz.tsx:234-246 | toggling twice restores the list |
| `EditQuiz.IndexOf` | QuizMasterAI_Frontend/src/pages/EditQuiz.tsx:95-96 | the first question with the id, or the list's end when none has it |
| `EditQuiz.UpdatePayload` | QuizMasterAI_Frontend/src/pages/EditQuiz.tsx:99-106 | the body carries the question's id and text and its answers in order, ids dropped |
| `EditQuiz.AsCommand` | QuizMasterAI_Backend/QuizMaster/Features/Questions/Update/UpdateQuestion.cs:34-40 | the body binds to the back end's command field for field |
| `EditQuiz.TwoCorrect` | QuizMasterAI_Backend/QuizMaster/Features/Questions/Update/UpdateQuestion.cs:51 | two correct answers break the exactly-one rule |
| `EditQuiz.SavedFlags` | QuizMasterAI_Frontend/src/pages/EditQuiz.tsx:99-106 | the back end sees the page's correctness flags unchanged |
| `EditQuiz.IndexOfSameIds` | QuizMasterAI_Frontend/src/pages/EditQuiz.tsx:95 | edits that keep ids keep where the question is found |
| `EditQuiz.SecondCorrectRefused` | QuizMasterAI_Frontend/src/pages/EditQuiz.tsx:234-246 | marking a second answer correct and saving is refused by the back end with its exactly-one message |
| `EditQuiz.SaveTitleRequest` | QuizMasterAI_Frontend/src/pages/EditQuiz.tsx:59-63 | no call without a route id; otherwise a title update of that quiz with the trimmed title |
| `EditQuiz.EditQuizPage.constructor` | QuizMasterAI_Frontend/src/pages/EditQuiz.tsx:27-34 | empty title and list, loading, nothing being edited, the blank template |
| `EditQuiz.EditQuizPage.Load` | QuizMasterAI_Frontend/src/pages/EditQuiz.tsx:36-57 | a loaded quiz sets the title and list; a failed load leaves them and navigates away; loading ends either way |
| `EditQuiz.EditQuizPage.EditTitle` | QuizMasterAI_Frontend/src/pages/EditQuiz.tsx:141 | the title input sets the title and nothing else |
| `EditQuiz.EditQuizPage.StartEditing` | QuizMasterAI_Frontend/src/pages/EditQuiz.tsx:187 | the pencil makes that question the one being edited |
| `EditQuiz.EditQuizPage.EditQuestionText` | QuizMasterAI_Frontend/src/pages/EditQuiz.tsx:161-166 | the list becomes `EditText` of the old list |
| `EditQuiz.EditQuizPage.EditAnswer` | QuizMasterAI_Frontend/src/pages/EditQuiz.tsx:217-229 | the list becomes `EditAnswerText` of the old list |
| `EditQuiz.EditQuizPage.ToggleAnswer` | QuizMasterAI_Frontend/src/pages/EditQuiz.tsx:234-246 | the list becomes `ToggleCorrect` of the old list |
| `EditQuiz.EditQuizPage.DeleteQuestion` | QuizMasterAI_Frontend/src/pages/EditQuiz.tsx:77-92 | the delete call is made; the list drops that id only when it succeeds |
| `EditQuiz.EditQuizPage.UpdateQuestion` | QuizMasterAI_Frontend/src/pages/EditQuiz.tsx:94-120 | no call for an id not in the list; otherwise the first match's payload, whose id equals the route id, and the editor closes only on success |
| `CreateQuizPage.Submit` | QuizMasterAI_Frontend/src/pages/CreateQuiz.tsx:44-87 | the first failing check's message, in the order title, topic, difficulty, count, each pinned to its check; a request exactly when all pass, with the trimmed title and topic, the mapped difficulty and the parsed count |
| `CreateQuizPage.HandleSubmit` | QuizMasterAI_Frontend/src/pages/CreateQuiz.tsx:40-102 | a refused form sends nothing; a sent form calls `createQuiz`; navigation to /my-quizzes exactly when the call succeeds |
| `CreateQuizPage.WhiteSpaceTables` | QuizMasterAI_Backend/QuizMaster/Features/Quizzes/Create/CreateQuiz.cs:41-42 | every .NET white-space character is JavaScript white space, except NEXT LINE |
| `CreateQuizPage.SentRequestValid` | QuizMasterAI_Frontend/src/pages/CreateQuiz.tsx:82-87 | a request the form sends passes the back end's validator unless its title or topic holds NEXT LINE |
| `CreateQuizPage.NextLineTitleRefusedByBackend` | QuizMasterAI_Frontend/src/pages/CreateQuiz.tsx:44 | a NEXT LINE title passes the form and fails the back end |
| `CreateQuizPage.NextPlaceholder` | QuizMasterAI_Frontend/src/pages/CreateQuiz.tsx:32-34 | the tick stays within the topics and advances by one modulo their number |
| `CreateQuizPage.AfterTicks` | QuizMasterAI_Frontend/src/pages/CreateQuiz.tsx:30-38 | the index stays within the topics after any number of ticks |
| `CreateQuizPage.TicksRotate` | QuizMasterAI_Frontend/src/pages/CreateQuiz.tsx:30-38 | n ticks move the placeholder n places round the list |
| `CreateQuizPage.QuizForm.constructor` | QuizMasterAI_Frontend/src/pages/CreateQuiz.tsx:10-26 | an empty form at the first placeholder |
| `CreateQuizPage.QuizForm.Tick` | QuizMasterAI_Frontend/src/pages/CreateQuiz.tsx:31-35 | the index becomes `NextPlaceholder` of the old one, and the form stays |
| `CreateQuizPage.QuizForm.SetTitle` | QuizMasterAI_Frontend/src/pages/CreateQuiz.tsx:120-122 | only the title changes |
| `CreateQuizPage.QuizForm.SetTopic` | QuizMasterAI_Frontend/src/pages/CreateQuiz.tsx:138-142 | the topic keeps at most its first 150 characters, and nothing else changes |
| `CreateQuizPage.QuizForm.SetDifficulty` | QuizMasterAI_Frontend/src/pages/CreateQuiz.tsx:159-173 | only the difficulty changes, to one of the options |
| `CreateQuizPage.QuizForm.SetNumberOfQuestions` | QuizMasterAI_Frontend/src/pages/CreateQuiz.tsx:195-197 | only the count text changes |
| `MyQuizzes.PageButtons` | QuizMasterAI_Frontend/src/pages/MyQuizzes.tsx:132 | one button per page, the i-th labelled i + 1, none for a count below 1 |
| `MyQuizzes.PageButtonsExact` | QuizMasterAI_Frontend/src/pages/MyQuizzes.tsx:132 | the buttons are strictly ascending and are exactly the pages 1 to `totalPages` |
| `MyQuizzes.FetchCall` | QuizMasterAI_Frontend/src/pages/MyQuizzes.tsx:40 | the list fetch asks for the page, with 12 quizzes a page |
| `MyQuizzes.EditPath` | QuizMasterAI_Frontend/src/pages/MyQuizzes.tsx:64-66 | the editor route followed by the quiz id, which reads back from it |
| `MyQuizzes.EditPathInjective` | QuizMasterAI_Frontend/src/pages/MyQuizzes.tsx:64-66 | each card's Edit button leads to its own quiz |
| `MyQuizzes.MyQuizzesPage.constructor` | QuizMasterAI_Frontend/src/pages/MyQuizzes.tsx:28-33 | page 1 of 1, loading, no pending delete, with the first fetch under way |
| `MyQuizzes.MyQuizzesPage.ShowPageControls` | QuizMasterAI_Frontend/src/pages/MyQuizzes.tsx:122 | the controls show only over a loaded, non-empty list with at least two page buttons |
| `MyQuizzes.MyQuizzesPage.PreviousDisabled` | QuizMasterAI_Frontend/src/pages/MyQuizzes.tsx:126-127 | Previous is disabled during a page change and, on a page in range, enabled only when the page before has a button |
| `MyQuizzes.MyQuizzesPage.NextDisabled` | QuizMasterAI_Frontend/src/pages/MyQuizzes.tsx:145-146 | Next is disabled during a page change and, on a page in range, enabled only when the page after has a button |
| `MyQuizzes.MyQuizzesPage.DialogOpen` | QuizMasterAI_Frontend/src/pages/MyQuizzes.tsx:156 | the dialog is open only with a pending quiz, and never for the id 0 |
| `MyQuizzes.MyQuizzesPage.CompleteFetch` | QuizMasterAI_Frontend/src/pages/MyQuizzes.tsx:41-53 | a reply sets the list, `totalPages` and `currentPage` from the response; loading ends either way; a changed page number fetches again |
| `MyQuizzes.MyQuizzesPage.ChangePage` | QuizMasterAI_Frontend/src/pages/MyQuizzes.tsx:56-62 | the page becomes the one asked for, and is fetched exactly when it differs from the page shown |
| `MyQuizzes.MyQuizzesPage.RequestDelete` | QuizMasterAI_Frontend/src/pages/MyQuizzes.tsx:117 | a card's delete sets the pending quiz and nothing else |
| `MyQuizzes.MyQuizzesPage.CancelDelete` | QuizMasterAI_Frontend/src/pages/MyQuizzes.tsx:156 | closing the dialog clears the pending quiz and nothing else |
| `MyQuizzes.MyQuizzesPage.HandleDelete` | QuizMasterAI_Frontend/src/pages/MyQuizzes.tsx:68-87 | without a truthy pending quiz nothing happens; otherwise the delete call, a refetch of the same page exactly on success, and the pending quiz cleared either way |

## Left out

- The language-model call (`QuizCreator.cs`, `ChatClientFactory.cs`) is not part of this model. The completion a call returns, or its failure, is a parameter of `CreateQuiz.Handle`; its prompt and JSON schema are not modelled.
- `JsonDocument.Parse` is not modelled. The mapper starts from a parsed JSON value. A JSON `null` where a string is read counts as a failure. In .NET `GetString()` returns null there; whether the save then fails depends on the Question and Answer entities, which are not part of this model. A required text column would make `SaveChangesAsync` throw inside the `try`, and so give the external-call error, as the model does.
- Entity Framework internals are abstracted. Each handler is one atomic commit on a map, and LINQ translation and transactions remain outside. Identity values are counters that start at 1 and are never reused.
- `CreateQuiz.Handle`: a save that fails is a boolean parameter. Identity values that a rolled-back insert would consume are not modelled.
- Answer rows have ids in the database, but the model does not carry them from the back end to the front end. `GetQuizDetails.ToDtos` produces answers without ids. `SolveQuiz.FindById` and the scoring take the answer ids as their own inputs. The answer entity is not part of this model, and no handler looks an answer up by id.
- Pagination is abstract. `GetQuizzes.GetQuizzes` hands the caller's summaries and the page asked for to the paging step. `PaginatedListAsync`, the slicing and the `totalPages` formula are not part of this model.
- FluentValidation's built-in message texts are library text. A failure of a built-in rule carries only its property name; the custom messages are verbatim.
- `CreateQuiz.Endpoint`: the created response carries the new id, not the serialised `Result` object the source passes.
- `Http.StatusCode`: an exception that escapes a handler is reported as 500. That is the framework's default, and no source file states it.
- Null strings in commands are not modelled. C# strings are sequences of characters, so `NotEmpty` applies to non-null text.
- `Validation.Details` joins failure texts with the Unix "\n". `Environment.NewLine` is "\r\n" on Windows, which is not modelled.
- `Store.QuestionExists` folds the two lookups of the question handlers into one: the question by id, then the quiz holding it. That is sound only if every question has its quiz, that is, if the question's `QuizId` foreign key is required. The Question entity is not part of this model, and the model assumes that key is required.
- The current user is a parameter. Reading the claim and `Guid.Parse` failures are not modelled (`CurrentUserService.cs` is not part of this model).
- Wiring and startup are not modelled: dependency injection, JWT setup, route mapping, migrations and application hosting. Neither are logging, cancellation tokens or concurrency between requests.
- Front-end I/O is replaced by parameters: `fetch`, the Supabase session, toasts and navigation. The pages receive what a call resolved to; the toast texts and the navigation target appear only where a handler decides them.
- JSX rendering and the presentation components are not modelled (`Index.tsx`, `Navbar.tsx`, `App.tsx`, `QuizDetails.tsx`, `QuizCard.tsx`), nor are styling tables.
- `SolveQuiz.SolveQuizPage.CurrentScreen` shows the solving screen for a quiz with no questions, which the back end can store (`CreateQuiz.GeneratedContentUnchecked`). The page then reads `questions[currentQuestion].text` with `questions` empty and throws while rendering; that crash is not modelled.
- `CreateQuizPage.QuizForm.SetTopic` counts the 150-character bound in Unicode scalar values, while `maxLength` counts UTF-16 code units. A topic with characters outside the Basic Multilingual Plane holds fewer of them in the browser than the model allows.
- Floating-point display is not modelled: the percentage and the progress-bar width on the results screen.
- `parseInt` is a parameter, an abstract partial parse, and the `setInterval` period of 7 seconds is not modelled. JavaScript numbers are integers here, with no fractions, NaN or exponent formatting of very large values.
- The SolveQuiz quiz-list fetch on mount is modelled only as the end of loading (`FinishListLoad`). The fetched list is not kept. In the source it lists the cards to pick from, and it supplies the quiz title shown while solving and on the results screen. Only the quizzes of `getQuizzes(1)`, 12 to a page, can be picked, while `SelectQuiz` accepts any id.
- `EditQuiz.EditQuizPage.Load` models the page reached through its route, which always has an id. The early return for a missing id, which would leave the page loading, is not modelled.
- `MyQuizzes`: the effect's dependency on `toast` is not modelled, because the hook returns a stable function. The effect is taken to run exactly when `currentPage` changes.
- Concurrency between interleaved page handlers is not modelled: a second click during an `await`, or a reply that arrives after the page has changed. Each handler runs to completion in the order given.
