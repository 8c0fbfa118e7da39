# quizz-buzz quiz engine in Dafny

A model of the quiz engine of quizz-buzz, a quiz web application. Its core has two parts.

- **The FastAPI back end** (`backend/main.py`). It scores a submission against the quiz's
  questions, appends the result to the in-memory result list, summarises that list, and
  normalises stored results when it starts.
- **The React pages.**
  - The attempt itself: answers, review marks, navigation, the countdown and submission.
  - The admin dashboard row derivation.
  - The exam statistics and pagination.
  - The per-student answer sheet.
  - The quiz catalogue: upload, selection and merge.
  - The student name check.

Pure code is modelled as functions with lemmas about them. Code that changes state step by step
becomes classes with methods:

- `Scoring.ResultStore` is the module-level `student_results` list.
- `QuizPage.AttemptSession` holds the attempt state of the quiz page.
- `JsonUpload.UploadPage` and `JsonSelection.SelectionPage` hold the state of those two pages.

The loops of `calculate_score`, `load_results` and the predefined-quiz fetch are `while` loops
with invariants. Each loop is proved equal to a specification function:

- `calculate_score` against the recursive `Scoring.Details`;
- the predefined-quiz fetch against the recursive `JsonSelection.Predefined`;
- `load_results` against `Scoring.NormalizeAll`, the sequence of `Scoring.NormalizeRecord` over
  the stored records.

## Behaviour the model reproduces

- **The score is always 0.** `calculate_score` sets its `correct` counter to 0 and never
  increments it. Every record appended by `submit_quiz` therefore has `correctAnswers == 0` and
  `score == 0`, and the summary average over such records is 0. The application's description
  speaks of a working evaluation; the model follows the code.
- **Letter mapping.** An int answer key is a Python list index into `["A","B","C","D"]`, so
  -4..-1 alias D..A and any other int raises `IndexError`. A missing key becomes "X", so an
  out-of-range selection (also "X") is marked correct.
- **Empty quiz.** An empty question list makes `submit_quiz` divide by zero.
- **`answeredQuestions`** counts every submitted answer, skipped ones included.
- **Totals on the dashboard.** A stored total of 0 is falsy and falls back to 10. So the
  dashboard total is never 0. It is positive unless a stored total is negative, because negative
  numbers are truthy. `unanswered` is not clamped.
- **Stored-quizzes parse failure on the selection page.** The outer `catch` of the selection
  page is reached only when the stored `quizzes` entry cannot be parsed. Its fallback parses the
  same entry again and throws again, so the page's quiz map stays as it was: `{}` on first load.
  The model states this rather than the "stored map alone" the comment promises.
- **Parameters for outside effects.**
  - An upload receives the already-decoded file content.
  - The selection page receives each fetch's outcome.
  - The attempt receives the answer to each `window.confirm`.
  - Browser storage and `navigate` are fields of the page classes.
- **Rounding.** Percentages on the React pages are integers. `Math.round(p / q)` is the exact
  nearest integer with halves rounded up (`Js.RoundDiv`). The back end's scores are exact reals.

## Model

| member | source | states |
|---|---|---|
| Scoring.LetterAt | backend/main.py:129 | indexing the letter list succeeds exactly for -4..3 and then yields one of A..D; any other int is an IndexError |
| Scoring.LetterAtAliases | backend/main.py:129 | indices 0..3 give four different letters, and i - 4 names the same letter as i |
| Scoring.SelectedLetter | backend/main.py:131 | selections 0..3 give their letter and every other selection gives "X" |
| Scoring.CorrectLetter | backend/main.py:127-130 | a missing key is "X", an int key fails exactly when out of -4..3, and a string key is kept unchanged |
| Scoring.IntKeyVerdict | backend/main.py:128-132 | for an int key and a selection in 0..3, the verdict is index equality, with negative keys shifted by four |
| Scoring.MissingKeyVerdict | backend/main.py:127-132 | without an answer key, exactly the out-of-range selections are marked correct |
| Scoring.QuestionMap | backend/main.py:118 | the map's keys are exactly the question numbers and each key maps to a question with that number |
| Scoring.QuestionMapLastWins | backend/main.py:118 | when several questions share a number, the map holds the last one |
| Scoring.Detail | backend/main.py:134-143 | a detail entry carries the answer's number, selection, time and mark; its answer key is the question's letter, its text and options are the question's (empty when absent); it is correct exactly when the letters are equal |
| Scoring.Details | backend/main.py:122-143 | there are no more entries than answers, and every entry names a known question |
| Scoring.DetailsFollowAnswers | backend/main.py:122-143 | entries correspond one to one, in order, to the answers whose question exists |
| Scoring.UnknownAnswerIgnored | backend/main.py:123-125 | inserting an answer to an unknown question anywhere leaves the details unchanged |
| Scoring.CalculateScore | backend/main.py:117-149 | fails (IndexError) exactly when some answer's int key is out of range; otherwise correct is 0, total is the number of questions, and the details are the specified ones |
| Scoring.SubmitRecord | backend/main.py:151-167 | unknown quiz gives a 404; an empty quiz gives ZeroDivisionError; a non-empty quiz fails (IndexError) exactly when some answer's key raises; a success has total > 0, correct 0, score 0, answeredQuestions equal to the number of answers, calculate_score's details, and the submission's name, email, quiz name, time and submission time |
| Scoring.ResultStore.constructor | backend/main.py:86 | the result list starts empty |
| Scoring.ResultStore.Submit | backend/main.py:151-172 | a successful submit appends exactly its record after the earlier ones and replies with its score; a failure leaves the list unchanged |
| Scoring.AllResultsSummary | backend/main.py:174-184 | totalStudents is the number of records, and the average is 0 for an empty list |
| Scoring.AverageWithinBounds | backend/main.py:180-182 | the average lies between any lower and upper bound of all scores |
| Scoring.SubmittedAverageIsZero | backend/main.py:180-182 | when every score is 0, as after submissions, the average is 0 |
| Scoring.NormalizeDetail | backend/main.py:94-96 | a stored int key in 0..3 becomes its letter, an out-of-range int fails, a missing key is a KeyError, a string key is kept, and every other field carries over unchanged |
| Scoring.StoreThenNormalize | backend/main.py:94-101 | saving a detail and loading it back gives the same detail |
| Scoring.NormalizeRecord | backend/main.py:97 | the loaded record has one normalised detail per stored detail, and keeps every other stored field: name, email, quiz name, totals, answered and correct counts, score, time and submission time |
| Scoring.NormalizeAll | backend/main.py:93-97 | one loaded record per stored record, the k-th being the k-th stored record normalised |
| Scoring.ResultStore.Load | backend/main.py:89-97 | with all records loadable, the list grows by exactly their normalised forms; otherwise the records before the first failing one were appended |
| QuizPage.OptionLabel | frontend/src/pages/QuizPage.tsx:183 | option i of the first 26 is labelled with the letter 'A' + i |
| QuizPage.OptionLabelsDistinct | frontend/src/pages/QuizPage.tsx:183 | two options less than 2^16 apart never share a label |
| QuizPage.QuestionStatus | frontend/src/pages/QuizPage.tsx:98-108 | each of the five statuses holds exactly under its condition: current first, then answered and marked, answered, marked, not visited |
| QuizPage.FormatTimeFields | frontend/src/pages/QuizPage.tsx:56-61 | the text is digits:digits:digits; the minutes and seconds fields are two digits below 60; the hours field has at least two digits; and the fields read back as h*3600 + m*60 + s == seconds |
| QuizPage.FormatInitialTime | frontend/src/pages/QuizPage.tsx:56-61 | the initial 600 seconds show as "00:10:00" |
| QuizPage.NextTime | frontend/src/pages/QuizPage.tsx:44-50 | a tick from t >= 1 gives a smaller non-negative time, and from t <= 1 gives 0 |
| QuizPage.AfterTicksValue | frontend/src/pages/QuizPage.tsx:43-50 | after n ticks from t >= 0 the time is max(0, t - n), so it never goes below 0 |
| QuizPage.AutoSubmitFromInitialTime | frontend/src/pages/QuizPage.tsx:43-50 | starting from 600, tick number n requests submission exactly when n >= 600 |
| QuizPage.Toggled | frontend/src/pages/QuizPage.tsx:71-79 | the toggled element's membership flips and every other element's membership stays |
| QuizPage.ToggleInvolution | frontend/src/pages/QuizPage.tsx:69-80 | toggling the same question twice restores the review set |
| QuizPage.NumbersBound | frontend/src/pages/QuizPage.tsx:358 | a question list has no more distinct numbers than entries |
| QuizPage.AttemptSession.constructor | frontend/src/pages/QuizPage.tsx:12-39 | starts with index 0, no answers, no marks and 600 seconds; loads the selected quiz when it is named and found, and otherwise goes back to quiz selection |
| QuizPage.AttemptSession.CurrentNumber | frontend/src/pages/QuizPage.tsx:110 | the number of the question on screen, or none before the quiz loads |
| QuizPage.AttemptSession.RemainingCount | frontend/src/pages/QuizPage.tsx:358 | remaining is never negative, and answered plus remaining equals the question count |
| QuizPage.AttemptSession.SelectOption | frontend/src/pages/QuizPage.tsx:62-67 | the current question's entry becomes the option's label, overwriting any earlier choice; all other entries and state are unchanged |
| QuizPage.AttemptSession.MarkForReview | frontend/src/pages/QuizPage.tsx:69-80 | the review set becomes the old set toggled at the current question; nothing else changes |
| QuizPage.AttemptSession.ClearResponse | frontend/src/pages/QuizPage.tsx:82-89 | only the current question's entry is removed, and nothing changes if it was absent |
| QuizPage.AttemptSession.Previous | frontend/src/pages/QuizPage.tsx:238 | the index becomes max(0, i - 1) and stays valid |
| QuizPage.AttemptSession.Next | frontend/src/pages/QuizPage.tsx:277 | the index becomes min(len - 1, i + 1) and stays valid |
| QuizPage.AttemptSession.JumpTo | frontend/src/pages/QuizPage.tsx:311 | a palette click moves to that valid index |
| QuizPage.AttemptSession.SubmitQuiz | frontend/src/pages/QuizPage.tsx:91-96 | a confirmed submit stores a snapshot of the answers and goes to the results; a refusal changes nothing |
| QuizPage.AttemptSession.Tick | frontend/src/pages/QuizPage.tsx:43-50 | a tick requests submission exactly from t <= 1; the time becomes NextTime(t); answers, marks, questions and index never change, and the submission and route change only when the submission is confirmed |
| AdminDashboard.TotalQuestions | frontend/src/pages/AdminDashboard.tsx:348 | the total is the first truthy stored total, else 10; it is never 0, and it is positive when no stored total is negative |
| AdminDashboard.CorrectAnswers | frontend/src/pages/AdminDashboard.tsx:349 | score, else the legacy correct count, else 0, skipping zeros |
| AdminDashboard.WrongAnswers | frontend/src/pages/AdminDashboard.tsx:350 | the stored wrong count if truthy; else answered minus correct when answered is truthy; else 0 |
| AdminDashboard.Percentage | frontend/src/pages/AdminDashboard.tsx:353 | a truthy stored percentage is kept; otherwise it is the nearest integer to 100 * correct / total for a positive total, else 0 |
| AdminDashboard.NameCell | frontend/src/pages/AdminDashboard.tsx:358 | the first truthy of student_name, name and studentName, else "N/A"; never blank |
| AdminDashboard.ClassCell | frontend/src/pages/AdminDashboard.tsx:361-366 | class_name-section, else class-section, else full_student_id, else "N/A"; never blank |
| AdminDashboard.QuizCell | frontend/src/pages/AdminDashboard.tsx:369 | quiz_id, else quizName, else "N/A"; never blank |
| AdminDashboard.SubmittedCellOf | frontend/src/pages/AdminDashboard.tsx:434-436 | a date exactly when either submission time is truthy, built from the first truthy one; otherwise date_submitted or "N/A" as text |
| AdminDashboard.DeriveRow | frontend/src/pages/AdminDashboard.tsx:348-353 | correct + wrong + unanswered == total != 0 for every record, and answered == correct + wrong |
| AdminDashboard.DerivedPercentageEnds | frontend/src/pages/AdminDashboard.tsx:353 | without a stored percentage, all correct shows 100 and none correct shows 0 |
| AdminDashboard.DerivedPercentageInRange | frontend/src/pages/AdminDashboard.tsx:353 | without a stored percentage, 0 <= correct <= total gives a percentage within 0..100 |
| AdminDashboard.DashboardRows | frontend/src/pages/AdminDashboard.tsx:346 | min(10, n) rows, the i-th derived from the i-th result |
| AdminDashboard.PercentageBand | frontend/src/pages/AdminDashboard.tsx:416-427 | each band holds exactly on its interval: >= 80, [60, 80), [40, 60), < 40 |
| AdminDashboard.BandMonotone | frontend/src/pages/AdminDashboard.tsx:416-427 | a higher percentage never falls in a lower band |
| AdminDashboard.StyleOf | frontend/src/pages/AdminDashboard.tsx:416-427 | each band gets its background, text colour and border |
| AdminDashboard.StylesDistinguishBands | frontend/src/pages/AdminDashboard.tsx:416-419 | different bands have different backgrounds |
| ExamDetails.Max | frontend/src/pages/ExamDetails.tsx:116 | the highest is an element of the list and no element exceeds it |
| ExamDetails.Min | frontend/src/pages/ExamDetails.tsx:117 | the lowest is an element of the list and no element is below it |
| ExamDetails.CalculateStats | frontend/src/pages/ExamDetails.tsx:110-119 | an empty page gives zeros; otherwise the average is the nearest integer to the mean, with the maximum and minimum |
| ExamDetails.StatsOrdered | frontend/src/pages/ExamDetails.tsx:113-118 | lowest <= average <= highest |
| ExamDetails.UniformStats | frontend/src/pages/ExamDetails.tsx:113-118 | a page where every percentage is p shows p three times |
| ExamDetails.BandOf | frontend/src/pages/ExamDetails.tsx:94-104 | the three bands hold exactly on >= 80, [60, 80) and < 60 |
| ExamDetails.ScoreColor | frontend/src/pages/ExamDetails.tsx:94-98 | the colour is the one of the percentage's band |
| ExamDetails.ScoreBadge | frontend/src/pages/ExamDetails.tsx:100-104 | the badge is the one of the percentage's band |
| ExamDetails.ColorAndBadgeAgree | frontend/src/pages/ExamDetails.tsx:94-104 | two percentages share a colour exactly when they share a badge, exactly when they share a band |
| ExamDetails.FormatDate | frontend/src/pages/ExamDetails.tsx:85-92 | a string containing '/' is returned unchanged, and every other string goes to the locale formatter |
| ExamDetails.SubmittedCell | frontend/src/pages/ExamDetails.tsx:213 | the timestamp is formatted when it is non-empty, otherwise submitted_at |
| ExamDetails.FormattedDateUnchanged | frontend/src/pages/ExamDetails.tsx:86-89 | an already formatted timestamp is shown exactly as stored |
| ExamDetails.PagingStaysInRange | frontend/src/pages/ExamDetails.tsx:230-248 | on a visible bar, an enabled button moves the page by one and keeps it within 1..total_pages |
| ExamDetails.DisabledExactlyAtEnds | frontend/src/pages/ExamDetails.tsx:234-244 | Previous is disabled exactly where it would leave page 1, and Next exactly where it would pass total_pages |
| StudentAnswerDetails.StatusColor | frontend/src/pages/StudentAnswerDetails.tsx:91-98 | CORRECT is green and WRONG is red; every other status, unknown ones included, is grey |
| StudentAnswerDetails.StatusIcon | frontend/src/pages/StudentAnswerDetails.tsx:100-107 | CORRECT, WRONG and UNANSWERED get their icons, and anything else gets the question mark |
| StudentAnswerDetails.IconIdentifiesStatus | frontend/src/pages/StudentAnswerDetails.tsx:100-107 | two statuses share an icon exactly when they are equal or both unknown |
| StudentAnswerDetails.CountStatus | frontend/src/pages/StudentAnswerDetails.tsx:163-169 | the count is at most the number of answers, and 0 exactly when no answer has that status |
| StudentAnswerDetails.CorrectPlusWrongBounded | frontend/src/pages/StudentAnswerDetails.tsx:163-169 | the Correct and Wrong cards together count at most the number of answers |
| StudentAnswerDetails.OptionLetter | frontend/src/pages/StudentAnswerDetails.tsx:205 | only options 0..3 have a letter, 'A' + index |
| StudentAnswerDetails.OptionHighlight | frontend/src/pages/StudentAnswerDetails.tsx:204-212 | each of the four highlights holds exactly for its selected/correct combination |
| StudentAnswerDetails.OptionHighlights | frontend/src/pages/StudentAnswerDetails.tsx:204-212 | one highlight per option, in order |
| StudentAnswerDetails.HighlightsExclusive | frontend/src/pages/StudentAnswerDetails.tsx:205-212 | at most one option is shown selected and at most one correct, and no option from index 4 on is shown correct |
| StudentAnswerDetails.AnswerCellOf | frontend/src/pages/StudentAnswerDetails.tsx:229 | "Not Answered" exactly when selectedOption < 0, otherwise the stored letter |
| StudentAnswerDetails.NotAnsweredSelectsNothing | frontend/src/pages/StudentAnswerDetails.tsx:206-229 | an unanswered question shows no option as selected |
| StudentAnswerDetails.PercentageColor | frontend/src/pages/StudentAnswerDetails.tsx:156 | green exactly from 60 up, red otherwise |
| StudentAnswerDetails.BannerCountedAsWrong | frontend/src/pages/StudentAnswerDetails.tsx:236 | a question showing the incorrect banner is counted on the Wrong card |
| QuizStore.ReadQuizzes | frontend/src/pages/JsonSelection.tsx:41 | an absent entry reads as {}, a stored map as itself, and only unparsable text fails |
| QuizStore.QuizName | frontend/src/pages/JsonUpload.tsx:43 | a name without ".json" is unchanged, and otherwise exactly five characters shorter |
| QuizStore.QuizNameInverse | frontend/src/pages/JsonUpload.tsx:43 | putting ".json" back where it was first found restores the file name |
| QuizStore.QuizNameOfJsonFile | frontend/src/pages/JsonSelection.tsx:29 | a file whose only ".json" is its extension names the quiz by its base name |
| QuizStore.DotlessBaseName | frontend/src/pages/JsonSelection.tsx:29 | a base name without '.' plus ".json" names the quiz by its base name |
| QuizStore.OnlyFirstOccurrenceRemoved | frontend/src/pages/JsonUpload.tsx:43 | only the first ".json" is removed: "a.json.json" gives "a.json" |
| JsonUpload.StoreAfterUpload | frontend/src/pages/JsonUpload.tsx:38-46 | with a non-empty array and a readable store, the quiz is stored under its name, the keys gain exactly that name, and other quizzes are unchanged; otherwise the store is untouched |
| JsonUpload.ReuploadOverwrites | frontend/src/pages/JsonUpload.tsx:43-45 | uploading the same file name twice leaves what the second upload alone would leave |
| JsonUpload.UploadPage.constructor | frontend/src/pages/JsonUpload.tsx:12-13 | no file is chosen and the page is not loading |
| JsonUpload.UploadPage.FileChange | frontend/src/pages/JsonUpload.tsx:16-23 | a file is accepted exactly when its type is application/json; otherwise the earlier choice is kept |
| JsonUpload.UploadPage.Upload | frontend/src/pages/JsonUpload.tsx:25-55 | without a file nothing changes; otherwise the store becomes StoreAfterUpload, success iff content and store are valid, navigation only on success, and loading false afterwards |
| JsonSelection.KnownQuizNames | frontend/src/pages/JsonSelection.tsx:16-29 | the seven known files are served under their base names, such as "7th std Maths" |
| JsonSelection.LoadedQuestions | frontend/src/pages/JsonSelection.tsx:31-33 | a fetch stores something exactly when it answered ok with a body other than null; an object body with a questions field stores that field, and any other stored body stores undefined |
| JsonSelection.PredefinedKeys | frontend/src/pages/JsonSelection.tsx:27-38 | a quiz name is predefined exactly when some file of that name loaded, whatever failed before or after |
| JsonSelection.PredefinedValue | frontend/src/pages/JsonSelection.tsx:27-36 | the quiz stored under a file's name is what that file loaded, when no later file of that name loaded |
| JsonSelection.LoadPredefined | frontend/src/pages/JsonSelection.tsx:27-38 | the loop's map equals the specification Predefined over all files |
| JsonSelection.Merge | frontend/src/pages/JsonSelection.tsx:44 | the keys are the union, the stored quiz wins on a collision, and the predefined quiz is kept elsewhere |
| JsonSelection.MergeIdentities | frontend/src/pages/JsonSelection.tsx:44 | merging with an empty map on either side gives the other map |
| JsonSelection.QuestionCount | frontend/src/pages/JsonSelection.tsx:106 | an array's length for arrays, and 0 for anything else |
| JsonSelection.ViewOf | frontend/src/pages/JsonSelection.tsx:79 | "No Quizzes Found" exactly for an empty map; otherwise one card per name with its count |
| JsonSelection.SelectionPage.constructor | frontend/src/pages/JsonSelection.tsx:5-6 | no quizzes, loading |
| JsonSelection.SelectionPage.Load | frontend/src/pages/JsonSelection.tsx:10-53 | a readable store gives Merge(Predefined, stored); an unreadable one leaves the quizzes as they were; loading ends |
| JsonSelection.SelectionPage.Select | frontend/src/pages/JsonSelection.tsx:59-63 | records exactly that quiz's name and data and goes to the name page |
| StudentName.StartQuiz | frontend/src/pages/StudentName.tsx:8-16 | rejected exactly when the input is all whitespace; otherwise the stored name is the non-empty, trimmed trim of the input |
| StudentName.StoredNameIsStable | frontend/src/pages/StudentName.tsx:14 | trimming the stored name again leaves it unchanged |
| StudentName.SurroundingWhitespaceIgnored | frontend/src/pages/StudentName.tsx:9-14 | whitespace around the input never changes the outcome |
| StudentName.DisabledIffRejected | frontend/src/pages/StudentName.tsx:45 | the button is disabled exactly when pressing it would be rejected |
| StudentName.KeyPress | frontend/src/pages/StudentName.tsx:39 | Enter runs the same handler as the button, and other keys do nothing |
| StudentName.DisplayedQuiz | frontend/src/pages/StudentName.tsx:18 | the stored selection if truthy, else "Unknown Quiz"; never blank |
| Js.Trim | frontend/src/pages/StudentName.tsx:9 | the result has no whitespace at either end, is no longer than the input, and is empty exactly for an all-whitespace input |
| Js.TrimDecomposes | frontend/src/pages/StudentName.tsx:14 | the input is whitespace, then its trim, then whitespace |
| Js.TrimIdempotent | frontend/src/pages/StudentName.tsx:14 | trimming twice is trimming once |
| Js.TrimPadded | frontend/src/pages/StudentName.tsx:9 | whitespace around a string does not change its trim |
| Js.RemoveFirst | frontend/src/pages/JsonUpload.tsx:43 | without an occurrence the string is unchanged; otherwise exactly the pattern's length is removed |
| Js.RemoveFirstInverse | frontend/src/pages/JsonUpload.tsx:43 | re-inserting the pattern where it was first found restores the string |
| Js.NatToStringRoundTrip | frontend/src/pages/QuizPage.tsx:60 | the decimal text of n reads back as n |
| Js.PadStart2Value | frontend/src/pages/QuizPage.tsx:60 | zero-padding to two characters keeps the number a digit string denotes |
| Js.RoundDiv | frontend/src/pages/AdminDashboard.tsx:353 | the result is within half a unit of p / q, with halves rounded up |
| Js.RoundDivUnique | frontend/src/pages/AdminDashboard.tsx:353 | the rounded quotient is the only integer within that half unit |
| Js.Property | frontend/src/pages/JsonSelection.tsx:33 | a lookup throws exactly on null or undefined; an object yields its field, and every other lookup yields undefined |

## Left out

- File and network I/O:
  - `load_quiz_questions` becomes an optional question list.
  - `save_results` and reading the results file are left out; stored records are a parameter.
  - `fetch`, `response.json()`, `File.text()` and `JSON.parse` are left out; their decoded
    results or failures are parameters.
  - localStorage becomes fields, and `navigate`, `alert` and `window.confirm` become fields and
    arguments.
- The link registry, admission capacity, duplicate-submission checks, `/admin/stats` and the
  server-side exam pagination. The pages only call them, and their implementation is not part of
  this model.
- FastAPI routing, CORS, static mounts and pydantic validation.
  - `Scoring.CorrectLetter` keeps an answer key that is neither an int nor a string as
    `NonString`. The validation or coercion that `QuestionResult(correctAnswer: str)` would then
    apply is not modelled.
  - Python's `bool` being an `int` is folded into `IntValue`.
- Floating point. `round(..., 2)` of the score and the average is left out: scores are exact
  reals. `Math.round` of a floating-point quotient is replaced by the exact rounded quotient.
  Percentages on the pages are integers.
- Dates: `toLocaleString` and `toLocaleDateString` are left out. The model records which string
  would be formatted.
- `Number.prototype.toString` is modelled for integers below 10^21. JavaScript's exponent
  notation for larger values is not.
- React scheduling.
  - Each timer tick is one method call.
  - The interval closure captures the first render's `handleSubmitQuiz`. The model's `Tick`
    submits the current answers, as that stale closure would not.
  - Once at 0 the timer keeps calling `handleSubmitQuiz` every second. The model repeats the
    request on every tick.
- QuizPage.AttemptSession: its handlers require a loaded, non-empty question list. The page
  renders them only then, at QuizPage.tsx:114-123.
- QuizPage.AttemptSession: the image viewer state (`selectedImage`) and the palette colours are
  left out.
- JsonSelection.ViewOf: the cards are a map from quiz name to question count. The insertion order
  of `Object.keys` is not modelled.
- StudentAnswerDetails.IsCorrectOption: `correctLetter` is taken to be a string as the interface
  declares, so the undefined letter of options from index 4 on never equals it.
- JSX markup and CSS class strings other than the mapped colours, badges and icons.
- The display and glue files are not part of this model:
  - frontend/src/App.tsx and frontend/tailwind.config.js;
  - AdminLogin.tsx, ResultPage.tsx, TeacherPanel.tsx, SubmissionDetails.tsx and
    ExamDashboard.tsx;
  - the older src/pages/JsonSelection.tsx.
