# Exam management: a verified model

This project models the logic of an exam-management web application in Dafny:

- **People and exams.** Teachers publish exams. Students upload their copies before the deadline, and teachers grade them.
- **AI features.** A local language model (DeepSeek served by Ollama) drafts a reference correction for each exam. It also proposes a grade for a copy, looks for plagiarism across the copies of one exam, and answers students' questions in a chatbot.

The model covers both sides of the application:

- **Backend:**
  - the Express handlers and their ordered guard chains (404, then 403, then 400, ...);
  - the single insert, update or delete that follows each guard chain;
  - the authentication middleware;
  - the service that reads documents, builds prompts and reduces the model's free-form reply to a JSON value.
- **Frontend:**
  - the React components' validators, filters and state updates;
  - the two route guards.

## Modules

- **Shared foundations:**
  - `Base`: option type, string search, JavaScript `trim`, Latin-1 `toLowerCase`, decimal text, order-preserving filter.
  - `Json`: JSON values and `JSON.stringify` with and without indentation. `JSON.parse` is an RFC 8259 reading of the text, surrogate-pair escapes included, followed by JavaScript's object construction: a repeated key keeps its last value at its first position, and integer-like keys come first in ascending order.
  - `JsonRoundTrip`: the proof that parsing a serialized value gives back its JavaScript form.
  - `Store`: the MySQL tables and the uploaded files as one mutable `Db` object, its invariants, and the row helpers the SQL statements stand for.
- **Backend handlers:** `Ollama`, `AiController`, `SubmissionController`, `ExamController`, `Auth`.
- **Frontend components:** `ExamList`, `Register`, `ExamForm`, `SubmissionDetail`, `Chatbot`, `PlagiarismDetection`, `PrivateRoute`, `RoleRoute`. Each component is a class whose fields are its state. A handler that awaits a request takes the request's outcome as a parameter.

## Model

| member | source | states |
|---|---|---|
| Base.IndexOf | backend/services/ollamaService.js:158-159 | the first occurrence of a pattern at or after a position, or none when it occurs nowhere there |
| Base.Lower | frontend/src/components/exams/ExamList.js:64-65 | lowercasing keeps the length and maps each character on its own |
| Base.LowerIdempotent | frontend/src/components/exams/ExamList.js:64-65 | lowercasing twice is lowercasing once |
| Base.TrimEmptyIffBlank | frontend/src/components/exams/ExamForm.js:90 | `trim()` is empty exactly when every character is JavaScript white space |
| Base.Where | frontend/src/components/exams/ExamList.js:63-70 | `filter` keeps exactly the elements passing the test, as a subsequence in their original order |
| Base.ReplaceFirstSpec | backend/middleware/authMiddleware.js:11 | `String.replace` with a string pattern replaces only the first occurrence, and returns the text unchanged when the pattern is absent |
| Base.NatTextValue | backend/controllers/aiController.js:206 | the decimal text of a number reads back as that number |
| Json.Get | backend/controllers/aiController.js:131 | a property read gives the value of a member with that name, and is undefined for a non-object or an absent name |
| Json.Parse | backend/services/ollamaService.js:167 | parsing succeeds exactly when the text is RFC 8259 JSON, and its result is always a JavaScript value: no repeated keys, integer-like keys first |
| Json.Supplementary | backend/services/ollamaService.js:167 | a high and a low surrogate escape combine into one character above the Basic Multilingual Plane |
| Json.PutSpec | backend/controllers/aiController.js:43 | storing a property keeps a valid property list; the new member replaces any member with its key and nothing else is lost; a replaced key keeps its position |
| Json.CollectSpec | backend/controllers/aiController.js:43 | an object built from parsed members holds exactly the last value written for each key, as a valid property list |
| Json.GetToJs | backend/controllers/aiController.js:131 | a property of the parsed object is the JavaScript form of the last member with that name |
| Json.ToJsKeepsJs | backend/controllers/aiController.js:43 | a value that already is a JavaScript value is unchanged by object construction |
| Json.Stringify | backend/controllers/aiController.js:56 | the text is never empty; it opens with a quote, `[` or `{` exactly for a string, an array or an object, and is `null` exactly for null |
| JsonRoundTrip.SurrogatePairReads | backend/services/ollamaService.js:167 | a character above the Basic Multilingual Plane written as two surrogate escapes reads back as that character |
| JsonRoundTrip.ParseTextStringify | backend/controllers/aiController.js:43-56 | the RFC 8259 reading of `JSON.stringify(v, null, gap)` is `v` for every value, compact and indented |
| JsonRoundTrip.ParseStringify | backend/controllers/aiController.js:43-56 | `JSON.parse(JSON.stringify(v, null, gap))` is the JavaScript form of `v`, and `v` itself when `v` has no repeated or misplaced keys |
| JsonRoundTrip.CompactHasNoNewline | backend/controllers/aiController.js:56 | compact serialization is a single line |
| Ollama.IsPdfIff | backend/services/ollamaService.js:144-149 | a file is read as a PDF exactly when its last path component is longer than four characters and ends in `.pdf`, in any letter case |
| Ollama.ReadDocument | backend/services/ollamaService.js:144-149 | PDF text for a `.pdf` path, UTF-8 text otherwise, nothing for a missing file or an unreadable PDF |
| Ollama.FenceMatchIsLeftmost | backend/services/ollamaService.js:158 | the fence search finds the leftmost opening fence and the first closing fence after it (the lazy match) |
| Ollama.FenceMatchNone | backend/services/ollamaService.js:158 | the fence search fails exactly when no fenced block exists |
| Ollama.BraceMatchIsLeftmost | backend/services/ollamaService.js:159 | the brace search finds the first `{` and the last `}` (the greedy match) |
| Ollama.BraceMatchNone | backend/services/ollamaService.js:159 | the brace search fails exactly when no `{` precedes a `}` |
| Ollama.ExtractFenced | backend/services/ollamaService.js:158-167 | with a non-empty fenced body, the result is the parse of exactly that body, even when a brace span comes earlier |
| Ollama.FencedParseErrorIsFinal | backend/services/ollamaService.js:158-167 | a fenced body that does not parse is a failure; the brace span is not tried |
| Ollama.EmptyFenceFails | backend/services/ollamaService.js:166-167 | an empty fenced body is falsy, so the whole fence is parsed, and that always fails |
| Ollama.ExtractBraced | backend/services/ollamaService.js:159-167 | without a fence, the candidate is the span from the first `{` to the last `}` |
| Ollama.ExtractNothing | backend/services/ollamaService.js:161-163 | with no fence and no brace span, nothing is extracted |
| Ollama.ParseRejectsBacktick | backend/services/ollamaService.js:167 | a candidate starting with a backtick never parses |
| Ollama.ExtractJson | backend/services/ollamaService.js:158-167 | an extracted value is a JavaScript value and is the parse of some slice of the reply |
| Ollama.FencedReplyRoundTrip | backend/services/ollamaService.js:158-167 | a reply holding a value in a fenced block yields that value's JavaScript form, unvalidated, and exactly the value when it already is one |
| Ollama.AnalysisPrompt | backend/services/ollamaService.js:19-49 | the prompt is the fixed opening, the exam text and the fixed instructions, with lengths adding up |
| Ollama.ComparisonPrompt | backend/services/ollamaService.js:57-90 | the prompt opens with the fixed evaluator text and ends with the fixed answer format |
| Ollama.AnalysisPromptQuotes | backend/services/ollamaService.js:19-24 | the analysis prompt holds the exam text verbatim at a fixed offset, and different exams give different prompts |
| Ollama.ComparisonPromptQuotes | backend/services/ollamaService.js:57-65 | the comparison prompt holds the submission verbatim, and the embedded two-space-indented correction parses back to the correction's JavaScript form |
| Ollama.ModelEndpoint.Query | backend/services/ollamaService.js:114-132 | one prompt is recorded as sent and the endpoint's answer is returned |
| Ollama.AnalysisNeedsDocument | backend/services/ollamaService.js:140-171 | an unreadable document fails the analysis whatever the model says |
| Ollama.AnalysisReturnsReplyValue | backend/services/ollamaService.js:155-167 | the JavaScript form of any value the model writes in a fenced block is the analysis result |
| Ollama.EvaluationReturnsReplyValue | backend/services/ollamaService.js:194-206 | the JavaScript form of any value the model writes in a fenced block is the evaluation result |
| Ollama.AnalyzeExam | backend/services/ollamaService.js:140-172 | the outcome is read, prompt, query and extract; exactly one prompt is sent, and only when the document is readable |
| Ollama.EvaluateSubmission | backend/services/ollamaService.js:180-211 | the same for a submission and its comparison prompt |
| Store.SortDesc | backend/controllers/examController.js:16 | `ORDER BY ... DESC`: the result is descending by key and is a permutation of the rows |
| Store.FirstCorrectionAppend | backend/controllers/aiController.js:41-57 | appending a correction for another exam keeps an exam's first correction; appending to an exam without one makes it the first |
| Store.OwnsExamIff | backend/controllers/examController.js:83-90 | the ownership query has a row exactly when an exam with the id was created by the teacher |
| Store.SameKeysKeepValid | backend/controllers/submissionController.js:205-208 | rewriting submission rows without changing their id, student or exam keeps every table invariant |
| AiController.GenerateExamCorrection | backend/controllers/aiController.js:9-67 | 403 unless owned; 400 without a file; a stored correction is returned as parsed and no query is made; otherwise one analysis, and only a success inserts the serialized result; a refusal changes nothing |
| AiController.GeneratedCorrectionIsReturnedNext | backend/controllers/aiController.js:41-57 | after an insert the new row is the exam's first correction and parses back to the generated value's JavaScript form, which is the value itself when the analysis came from `JSON.parse`, so the next request returns it |
| AiController.EvaluationPlan | backend/controllers/aiController.js:81-120 | the answer is 404 exactly when the submission and its exam are missing; the model is queried only for an allowed caller and a submission without a stored evaluation |
| AiController.EvaluationPlanCases | backend/controllers/aiController.js:81-120 | each answer happens exactly when its check is the first to fail, in the order 404, 403, 400, stored evaluation, `needsCorrection`; the model is queried only when all pass |
| AiController.EvaluateSubmission | backend/controllers/aiController.js:69-142 | a guard answer changes nothing and sends no prompt; a failed evaluation, or a result without `note_finale` (refused by mysql2 as `undefined`), is an error that changes nothing; a successful evaluation stores the serialized result and `note_proposee` from `note_finale`; table invariants are kept |
| AiController.StoredEvaluationIsReturnedNext | backend/controllers/aiController.js:97-103 | a stored evaluation is truthy, its `note_proposee` is the stored `note_finale`, and it parses back to the model's value in JavaScript form, so the next request returns it without a query |
| AiController.SetEvaluation | backend/controllers/aiController.js:129-132 | only `evaluation_auto` and `note_proposee` of the rows with the id change |
| AiController.Column | backend/controllers/aiController.js:131 | a JSON `null` is stored as SQL `NULL`, anything else as it is |
| AiController.Cohort | backend/controllers/aiController.js:159-164 | the exam's submissions joined with their students |
| AiController.Content | backend/controllers/aiController.js:171-197 | the document text, or the fixed placeholder when reading fails |
| AiController.Excerpt | backend/controllers/aiController.js:207 | the first 2000 characters and a space, ending in `...` exactly when the content was longer than 2000 |
| AiController.Entry | backend/controllers/aiController.js:206-207 | a student's block opens with its number and ends with the excerpt of the copy |
| AiController.Entries | backend/controllers/aiController.js:205-208 | one block per submission, in order, numbered from 1, each ending in its excerpt |
| AiController.PlagiarismPrompt | backend/controllers/aiController.js:200-234 | the prompt opens with the fixed introduction and the number of copies, and ends with the fixed answer format |
| AiController.RiskToFlag | backend/controllers/aiController.js:260-261 | after lowercasing, `élevé` gives 1, `moyen` 0.5, and every other token 0 |
| AiController.RiskTokens | backend/controllers/aiController.js:260-261 | capitalised accented tokens map like their lower-case forms; `eleve` and `faible` give 0 |
| AiController.BoundId | backend/controllers/aiController.js:263-266 | how MySQL binds `etudiant_id`: `undefined` fails the statement, `null` matches no row, a number or boolean selects a row or none, an array or object fails, a string fails exactly when MySQL cannot read a number from it and otherwise selects the row with that number |
| AiController.TargetId | backend/controllers/aiController.js:265 | an entry without `etudiant_id` fails the statement; a selected row comes from a present `etudiant_id` |
| AiController.DecimalTextSelectsRow | backend/controllers/aiController.js:263-266 | an id written as decimal text, with blanks around it, selects the same row as the number |
| AiController.WordIsRefused | backend/controllers/aiController.js:263-266 | a string that is not a number, such as a name, fails the statement |
| AiController.RiskEntries | backend/controllers/aiController.js:259 | `for ... of` runs over the items of an `evaluation_risque` array, over nothing for the empty string, and throws for anything else |
| AiController.Assessable | backend/controllers/aiController.js:260-266 | an entry the loop body completes is an object whose `etudiant_id` binds without failing |
| AiController.NumericEntryAssessable | backend/controllers/aiController.js:259-266 | an entry of the requested format, with a numeric id, a string risk and a justification, is processed |
| AiController.SetPlagiarism | backend/controllers/aiController.js:263-266 | only `plagiat_flag` and `plagiat_details` of the rows with the id change |
| AiController.ApplyFlags | backend/controllers/aiController.js:259-267 | the loop changes only the flag and details of any row |
| AiController.FlagOneAt | backend/controllers/aiController.js:263-266 | one update changes a row exactly when the entry's id selects it, and then sets its flag and details |
| AiController.UnassessedRowKept | backend/controllers/aiController.js:259-267 | a row that no entry names keeps its flag and details |
| AiController.LastAssessmentWins | backend/controllers/aiController.js:259-267 | with repeated ids, the last entry's flag and details win |
| AiController.FirstUnassessable | backend/controllers/aiController.js:260-266 | the index of the first entry the loop body throws on (a `risque` that is not a string, an undefined `justification`, or an `etudiant_id` the statement refuses); every entry before it is processed |
| AiController.FlagSubmissions | backend/controllers/aiController.js:259-267 | the loop applies the entries in order up to the first that throws, and succeeds exactly when none throws |
| AiController.CheckPlagiarism | backend/controllers/aiController.js:144-277 | 403 unless owned; 400 with fewer than two submissions, before any read or query; otherwise one prompt, then the stored result and the flag loop, or an error with no change |
| AiController.AskForPlagiarism | backend/controllers/aiController.js:236-249 | one prompt is sent, and the result is the value extracted from the answer |
| AiController.StoreResult | backend/controllers/aiController.js:251-267 | the serialized result is stored for the exam and the flags are applied; it succeeds exactly when the entries exist and none throws |
| AiController.RunPlagiarismCheck | backend/controllers/aiController.js:236-272 | one prompt; a failed extraction changes nothing; otherwise the result is stored and the flags applied, and success depends on the flag loop |
| AiController.CorrectionSection | backend/controllers/aiController.js:334-339 | the section opens with its fixed introduction, and exists exactly when `concepts_cles` is an array |
| AiController.CorrectionPart | backend/controllers/aiController.js:334-340 | the correction part is empty exactly when the stored correction is falsy |
| AiController.ChatPrompt | backend/controllers/aiController.js:305-346 | the prompt fails exactly when a truthy correction has no `concepts_cles` array; otherwise it opens with the quoted question and ends with the closing instructions |
| AiController.BuildChatPrompt | backend/controllers/aiController.js:305-346 | the prompt built by successive appends is the specified one |
| AiController.ChatPromptShape | backend/controllers/aiController.js:305-346 | the prompt opens with the quoted question and ends with the instruction not to give answers |
| AiController.ChatPromptSections | backend/controllers/aiController.js:313-340 | the exam section is present exactly when the exam text was read, so a read error is skipped; the correction section is present exactly when a correction is stored |
| AiController.ChatbotQuery | backend/controllers/aiController.js:280-361 | 404 without the exam; an unparsable stored correction or a correction without a `concepts_cles` array is an error with no query; otherwise the specified prompt is sent once; only an answered question is recorded |
| SubmissionController.JoinRows | backend/controllers/submissionController.js:13-21 | the joined rows are exactly the submissions with their user and exam |
| SubmissionController.AllSubmissions | backend/controllers/submissionController.js:6-28 | 403 for any role but teacher; otherwise exactly the submissions to the teacher's exams, latest first |
| SubmissionController.SubmissionsByExam | backend/controllers/submissionController.js:31-70 | a teacher gets 403 unless owning the exam; anyone else gets only their own rows; latest first |
| SubmissionController.MySubmissions | backend/controllers/submissionController.js:73-88 | exactly the caller's submissions joined with their exams, latest first |
| SubmissionController.SubmissionView | backend/controllers/submissionController.js:145-178 | 404 without the row; 403 for a student's foreign copy or a teacher's foreign exam |
| SubmissionController.SubmissionViewOwner | backend/controllers/submissionController.js:164-171 | a student reads only their own submission and a teacher only one to their own exam |
| SubmissionController.SubmitExam | backend/controllers/submissionController.js:91-142 | each refusal exactly when its check is the first to fail (published, deadline with `now > limit`, prior copy, file); a refusal changes nothing; the insert keeps the invariants |
| SubmissionController.SubmitKeepsValid | backend/controllers/submissionController.js:116-135 | the insert keeps ids unique and at most one submission per student and exam |
| SubmissionController.SecondSubmissionRefused | backend/controllers/submissionController.js:116-123 | once a student has a copy for an exam, the duplicate check finds it |
| SubmissionController.SetGrade | backend/controllers/submissionController.js:205-208 | only `note` and `commentaire` of the rows with the id change, whatever the grade's value |
| SubmissionController.GradeSubmission | backend/controllers/submissionController.js:181-215 | 404 without the row, 403 unless the caller teaches the exam, otherwise the grade update; a refusal changes nothing |
| SubmissionController.GradedByExamTeacher | backend/controllers/submissionController.js:200-202 | a submission is graded only by the teacher who created its exam |
| ExamController.ListExams | backend/controllers/examController.js:6-24 | a student sees exactly the published exams, anyone else every exam, ordered by deadline descending |
| ExamController.StudentListIsPublishedPart | backend/controllers/examController.js:12-14 | the student list is the teacher list without the unpublished exams |
| ExamController.GetExam | backend/controllers/examController.js:27-54 | 404 without the exam; 403 for a student and an unpublished exam; otherwise the exam with that id |
| ExamController.CreateExam | backend/controllers/examController.js:57-74 | one new row owned by the caller, with no file URL when nothing was uploaded; invariants kept |
| ExamController.NewUrl | backend/controllers/examController.js:93-104 | an update keeps the file URL unless a new file is uploaded |
| ExamController.RemoveFile | backend/controllers/examController.js:96-102 | the old file is removed when the exam had one; other files are kept |
| ExamController.ReviseRows | backend/controllers/examController.js:107-110 | the five columns are overwritten on the rows with the id; the id and teacher are kept; other rows are unchanged |
| ExamController.UpdateExam | backend/controllers/examController.js:77-117 | 403 and no change unless the caller created the exam; otherwise the update, with the old file removed only on a new upload |
| ExamController.UpdateKeepsOwnerAndFile | backend/controllers/examController.js:93-110 | after an owner's update without an upload, the row keeps its teacher and its file URL |
| ExamController.Remaining | backend/controllers/examController.js:145 | a delete removes exactly the rows with the id |
| ExamController.RemainingUnique | backend/controllers/examController.js:145 | deleting keeps exam ids unique |
| ExamController.DeleteExam | backend/controllers/examController.js:120-152 | 403 and no change unless the caller created the exam; otherwise the file is removed and no row with the id remains |
| Auth.TokenOfBearer | backend/middleware/authMiddleware.js:11 | `Bearer <token>` yields the token |
| Auth.TokenOfBare | backend/middleware/authMiddleware.js:11 | a header in which `Bearer ` occurs nowhere is verified as it is |
| Auth.VerifyHeaderCases | backend/middleware/authMiddleware.js:3-17 | a missing or empty header gets 403; a failed verification gets 401; a verified bearer token authenticates its payload |
| Auth.Request.VerifyToken | backend/middleware/authMiddleware.js:3-17 | on success `req.user` is the payload and `next` is called once; otherwise the status is set and `next` is not called |
| Auth.Request.IsTeacher | backend/middleware/authMiddleware.js:20-26 | `next` is called exactly when a user with role `enseignant` is present; otherwise 403 |
| Auth.Request.IsStudent | backend/middleware/authMiddleware.js:29-35 | `next` is called exactly when a user with role `etudiant` is present; otherwise 403 |
| Auth.GatesExclusive | backend/middleware/authMiddleware.js:20-35 | no user passes both role checks, and no request without a user passes either |
| Auth.TeacherRoute | backend/middleware/authMiddleware.js:3-26 | the handler is reached exactly when the header verifies to a teacher's payload |
| ExamList.FilteredExams | frontend/src/components/exams/ExamList.js:63-70 | a subsequence of the exams, keeping exactly those that match both the search and the status filter |
| ExamList.NoFilterKeepsAll | frontend/src/components/exams/ExamList.js:64-67 | an empty search with status `all` keeps every exam |
| ExamList.SearchIgnoresTermCase | frontend/src/components/exams/ExamList.js:64-65 | lowercasing the search term does not change the result |
| ExamList.Without | frontend/src/components/exams/ExamList.js:41 | exactly the exams with another id, in order |
| ExamList.WithoutIdempotent | frontend/src/components/exams/ExamList.js:41 | removing an id twice is removing it once |
| ExamList.ExamListView.HandleDelete | frontend/src/components/exams/ExamList.js:36-47 | the exam leaves the list only after confirmation and a successful call; a failed call raises an alert and keeps the list |
| Register.WithField | frontend/src/components/auth/Register.js:55-61 | the named field takes the value and every other field is unchanged |
| Register.FormErrorCases | frontend/src/components/auth/Register.js:63-89 | each message exactly when its check is the first to fail; the form is accepted exactly when none fails; an empty password with an empty confirmation gets the length message |
| Register.PayloadDropsOnlyConfirmation | frontend/src/components/auth/Register.js:103 | the payload is the form without `mdp_confirm`, and together with the confirmation it rebuilds the form |
| Register.RegisterView.constructor | frontend/src/components/auth/Register.js:8-22 | an empty form with role `etudiant` and the loading class list |
| Register.RegisterView.FetchClasses | frontend/src/components/auth/Register.js:26-53 | a non-empty list is shown as received; an empty list or a failure gives the five default classes, and a failure also an error |
| Register.RegisterView.ValidateForm | frontend/src/components/auth/Register.js:63-89 | accepts exactly the forms without a failing check; otherwise shows the first failure's message |
| Register.RegisterView.HandleSubmit | frontend/src/components/auth/Register.js:91-112 | an invalid form is not sent; a valid one is sent without the confirmation; success navigates to the login page, failure shows the server's message or a generic one |
| ExamForm.WithField | frontend/src/components/exams/ExamForm.js:67-73 | the named input takes the value; the other inputs and the file are unchanged |
| ExamForm.FilledForm | frontend/src/components/exams/ExamForm.js:43-49 | the form filled from the exam, with an empty description for `null` and no file |
| ExamForm.FormErrorCases | frontend/src/components/exams/ExamForm.js:89-107 | each message exactly when its check is the first to fail (blank title, empty deadline, then no file in create mode only); a file is never required to edit |
| ExamForm.ExamFormView.constructor | frontend/src/components/exams/ExamForm.js:14-25 | an empty form with status `brouillon`, loading only in edit mode |
| ExamForm.ExamFormView.FetchExam | frontend/src/components/exams/ExamForm.js:27-65 | as written: another teacher's exam sets the error without filling the form, and leaves the spinner on |
| ExamForm.ExamFormView.FetchExamCorrected | frontend/src/components/exams/ExamForm.js:34-37 | corrected: another teacher's exam shows the form screen with the refusal |
| ExamForm.ExamFormView.HandleChange | frontend/src/components/exams/ExamForm.js:67-73 | the form takes the new input value and nothing else changes |
| ExamForm.ExamFormView.HandleFileChange | frontend/src/components/exams/ExamForm.js:75-87 | choosing no file changes nothing; a chosen file replaces the form's file and the preview |
| ExamForm.ExamFormView.ValidateForm | frontend/src/components/exams/ExamForm.js:89-107 | accepts exactly the forms without a failing check; otherwise shows the first failure's message |
| ExamForm.ExamFormView.HandleSubmit | frontend/src/components/exams/ExamForm.js:109-133 | an invalid form is not sent; success opens `/exams/<id>` (the route id when editing, the created id otherwise); failure shows the server's message or a generic one |
| SubmissionDetail.AccessCases | frontend/src/components/submissions/SubmissionDetail.js:129-132 | a teacher has access exactly to their exams' copies, a student exactly to their own, and no other role to any |
| SubmissionDetail.PlagiarismAlert | frontend/src/components/submissions/SubmissionDetail.js:335-337 | an alert exactly when the flag is positive: a detection from 1 up, a suspicion below |
| SubmissionDetail.Prefilled | frontend/src/components/submissions/SubmissionDetail.js:42-47 | the grade form is replaced only when the copy has a grade, with an empty comment for a missing one |
| SubmissionDetail.WithEvaluation | frontend/src/components/submissions/SubmissionDetail.js:205-209 | the proposed grade replaces the form's; the comment is replaced only when non-empty |
| SubmissionDetail.Graded | frontend/src/components/submissions/SubmissionDetail.js:86-90 | only the grade and comment of the local copy change |
| SubmissionDetail.SubmissionDetailView.FetchData | frontend/src/components/submissions/SubmissionDetail.js:31-58 | a failed request ends loading with the error; the form is prefilled only once both the copy and its exam have arrived |
| SubmissionDetail.SubmissionDetailView.HandleSubmitGrade | frontend/src/components/submissions/SubmissionDetail.js:68-99 | a grade outside 0 to 20 sets the error and sends nothing; otherwise the form is sent, and a success updates only the grade and comment |
| SubmissionDetail.SubmissionDetailView.ApplyEvaluation | frontend/src/components/submissions/SubmissionDetail.js:205-211 | the proposal goes into the form with a message; the copy is unchanged |
| Chatbot.HistoryMessages | frontend/src/components/ai/Chatbot.js:16-20 | one message per history entry, in order: bot entries show the answer, the others the question |
| Chatbot.BotReply | frontend/src/components/ai/Chatbot.js:53-59 | the bot message is the server's answer, or the fixed apology on failure |
| Chatbot.ChatbotView.LoadHistory | frontend/src/components/ai/Chatbot.js:13-25 | only a non-empty history replaces the messages |
| Chatbot.ChatbotView.Send | frontend/src/components/ai/Chatbot.js:41-47 | a blank input does nothing; otherwise the user's message is appended, the input cleared and loading set |
| Chatbot.ChatbotView.Receive | frontend/src/components/ai/Chatbot.js:49-62 | exactly one bot message is appended, and loading ends whatever the outcome |
| Chatbot.ChatbotView.HandleSubmit | frontend/src/components/ai/Chatbot.js:39-63 | a whitespace-only input changes nothing; otherwise exactly the user's message and one bot reply are appended, the input is cleared and loading is off |
| PlagiarismDetection.RiskColor | frontend/src/components/ai/PlagiarismDetection.js:43-47 | `danger` exactly for `élevé`, `warning` exactly for `moyen`, `success` for every other string, case-sensitively |
| PlagiarismDetection.ColourAndFlag | frontend/src/components/ai/PlagiarismDetection.js:43-47 | `Élevé` is shown in the no-risk colour although the server flags it as a detection |
| PlagiarismDetection.ColourMatchesBanner | frontend/src/components/ai/PlagiarismDetection.js:43-47 | for a lower-case token, the colour agrees with the submission page's plagiarism banner for the flag the server stores |
| PlagiarismDetection.PlagiarismView.LoadExisting | frontend/src/components/ai/PlagiarismDetection.js:11-24 | a truthy stored result is shown; otherwise the display is kept |
| PlagiarismDetection.PlagiarismView.DetectPlagiarism | frontend/src/components/ai/PlagiarismDetection.js:26-40 | a success replaces the result and message; a failure keeps the previous result and shows the server's error or a generic one; loading ends |
| PrivateRoute.Guard | frontend/src/utils/PrivateRoute.js:10-20 | the spinner while loading, the login page without a user, the page otherwise |
| PrivateRoute.PrivateRouteIgnoresRole | frontend/src/utils/PrivateRoute.js:6-21 | the decision depends only on loading and on whether a user is present, and never denies access |
| RoleRoute.Guard | frontend/src/utils/RoleRoute.js:10-25 | the spinner while loading, the login page without a user, then the access-denied page exactly when the role is not allowed |
| RoleRoute.RoleRouteRefinesPrivate | frontend/src/utils/RoleRoute.js:20 | the role guard admits only what the private guard admits and differs from it only by denying a role; with no allowed role, every signed-in user is denied |

## Left out

- **The HTTP call to the model** (`OllamaService.query`) is a function from prompt to reply. A failed request is `None`. The prompt log records what was sent.
- **Files.** The PDF extraction (`pdf-parse`) and `fs` reading and unlinking are a map from stored URL to file contents.
  - Node's `path.join(__dirname, '..', url)` is not modelled; the URL itself is the key.
  - The axios and `api.js` service wrappers are not part of this model.
- **Database plumbing.** SQL text, `config/db.js` and the schema script are not modelled; tables are sequences of rows.
  - The schema's cascades are not modelled.
  - `examController.js` destructures `{ rows }` and uses `$n` placeholders against a mysql2 pool. This driver mismatch is not modelled: each statement is modelled as the query it evidently means.
  - `INSERT ... ON DUPLICATE KEY UPDATE` of the plagiarism result is a map update keyed by exam.
- **Tokens.** `jwt.verify` is a parameter of `Auth`.
- **`authController.js`** and its password hashing are not part of this model.
- **Concurrency.** Each handler is one sequential step:
  - `Promise.all` over the cohort's files;
  - the race between `submitExam`'s duplicate check and its insert;
  - React's batched state updates and effects.
  
  The invariant "one submission per student and exam" is proved for sequential requests only.
- **Time.** Dates are integers.
  - `new Date()` is a `now` parameter.
  - `toISOString` date formatting in `ExamForm` is not modelled; the fetched exam carries its date text already formatted.
- **Numbers.** `parseFloat` is a parameter of `HandleSubmitGrade`, and grades are exact reals.
  - JSON numbers are exact decimals (mantissa and exponent), not doubles.
- **Json.Stringify** writes a number as its mantissa followed by `e` and the exponent when the exponent is not zero (2.5 is `25e-1`), not as JavaScript's shortest round-trip text.
- **Json.Parse** keeps a number as written: no rounding to a double, and `1.0` differs from `1`.
- **Json.Parse** rejects a lone surrogate escape (`\ud800` not followed by a low surrogate), which JavaScript accepts, because Dafny characters are Unicode scalar values.
- **AiController.BoundId** assumes MySQL's strict mode, where a string with trailing junk fails the `UPDATE` instead of being truncated with a warning.
- **AiController.BoundId** compares ids as exact decimals, not as doubles, and treats MySQL's white space as JSON's four white-space characters.
- **AiController.BoundId** refuses an array or an object, which mysql2 would send as JSON text that MySQL cannot read as a number.
- **AiController.Column**: the conversion of `note_finale` and `justification` to the columns' SQL types is not modelled; the JSON value is stored as it is.
- **Characters.** `toLowerCase` is modelled on Latin-1 characters only. Lengths count characters, not UTF-16 code units.
- **The list pages' initial loads** are not modelled: `fetchExams` of `ExamList`, and the requests behind `getChatHistory` and `getPlagiarismResults`. Their results enter as parameters.
- **Not modelled:** rendering, routing wiring, `AuthContext`, and the pages outside the components above.
- **SubmissionDetail.SubmissionDetailView.HandleSubmitGrade** requires a loaded submission. The grading form is rendered only after the submission and its exam have loaded, so the handler cannot run before that.
- **Auth.Request.IsTeacher** and **Auth.Request.IsStudent** state no response body; the model records only the status.

## Findings

| source | as written | input that shows it | evidently intended | confidence | as-written member | corrected member |
|---|---|---|---|---|---|---|
| frontend/src/components/exams/ExamForm.js:34-37 | in edit mode, the owner check sets the error and returns before `setLoading(false)` | open `/exams/<id>/edit` for an exam whose `enseignant_id` is not the current user's id: `loading` stays true, so the spinner shows forever and the error is never displayed | the refusal is shown on the form screen, as for a failed load (lines 56-59) | not executed | ExamForm.ExamFormView.FetchExam | ExamForm.ExamFormView.FetchExamCorrected |
