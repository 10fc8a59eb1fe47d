# Examapp server core in Dafny

A model of the exam server's own logic, with proofs about that model. It covers:

- how a teacher's free-text questions become quiz records (`parseMCQContent`,
  `parseShortContent` and the `/api/structure-quiz` handler);
- how student answers are graded by the two submission paths: the batch
  `/api/student/submit-exam` and the one-question-at-a-time
  `/api/student/submit-answer`;
- how an exam session is created, advanced and completed.

Both servers are covered. `server/index.js` has the two-mode grader, whose
evaluator asks for marks out of 5. `server/index.new.js` has the same batch
path, but its evaluator asks for a similarity directly.

Modules, in dependency order:

- `Wrappers` (`wrappers.dfy`): `Option` and `Result`.
- `Text` (`text.dfy`): the string primitives the server uses.
  - `String.prototype.trim` and the `\s`, `\d` and `.` classes write out
    JavaScript's whitespace and line-terminator sets.
  - `split('\n')` and its inverse `Join`.
  - Decimal numerals.
- `LineShapes` (`line_shapes.dfy`): the three fixed regular expressions the
  parsers use, written as functions, plus the `^\d+\.\s*` number prefix. This
  includes the greedy `\s*` backtracking in front of `(.+)` and the leftmost,
  case-insensitive `Correct:` marker.
- `ExamModel` (`exam_model.dfy`): the stored records (question, exam, answer
  record), the `reduce` sums and the percentage.
  - A JavaScript `undefined` mark is `None`.
  - A `NaN` or infinite percentage is `None`.
- `ContentParser` (`content_parser.dfy`): the two parsers and quiz assembly.
  - Each parser is an imperative loop, proved equal to a fold over the lines.
  - What the parsers promise is proved about that fold.
- `QuizText` (`quiz_text.dfy`): a renderer that lays questions out the way the
  teacher's page suggests. It is proved to be a right inverse of the parsers,
  which is the round trip.
- `Evaluator` (`evaluator.dfy`): `evaluateShortAnswer`, with the service reduced
  to the reply it gives or its failure. It has two scoring styles, one per
  server.
- `Grading` (`grading.dfy`):
  - the per-question grading of both paths;
  - the `forEach` aggregation as a loop;
  - bounds on marks and totals.
- `Sessions` (`exam_session.dfy`): the session as a state record with a
  transition function per handler, its invariant, and a class
  `ExamSession` whose fields the handlers update in place.

## Model

| member | source | states |
|---|---|---|
| Text.Trim | server/index.js:584 | The result is the slice of the line that starts right after its leading white space, and everything after the result is white space. It neither starts nor ends with white space, and it is empty exactly when the line is all white space. |
| Text.JoinSplit | server/index.js:578 | Joining the pieces of `content.split('\n')` with newlines gives the content back. |
| Text.SplitJoin | server/index.js:578 | Splitting newline-free lines after joining them gives the same lines back. |
| LineShapes.WhitespaceThenText | server/index.js:588 | `\s*(.+)` fails exactly when everything up to and including the end of the leading white space is a line terminator. Otherwise it captures a non-empty text with no line terminator, starting where the greedy white space ends whenever that is inside the string. |
| LineShapes.NumberDotLength | server/index.js:588 | `^\d+\.` matches exactly when the line's maximal leading digit run is non-empty and is followed by a dot. The match is that run plus the dot. |
| LineShapes.QuestionText | server/index.js:588 | A question capture exists only for numbered lines. It is `\s*(.+)` applied to the rest of the line after the number and dot, and it is never empty. |
| LineShapes.OptionText | server/index.js:606-609 | An option capture exists only for lines that start with a letter A-D followed by `.` or `)`. For those lines it is `\s*(.+)` applied to the rest after those two characters, and it is never empty. |
| LineShapes.MarkerAt | server/index.js:613-614 | The marker matches at a position exactly when `correct:` in any case starts there and is followed by white space and then a letter a-d or A-D. The letter returned is the character at the end of that white space. |
| LineShapes.FindMarker | server/index.js:613-614 | A marker letter is found exactly when the marker matches at some position, and the letter returned is always one of a-d or A-D. |
| LineShapes.FindMarkerLeftmost | server/index.js:613-614 | The letter found is the one at the leftmost position where the marker matches, as the regular expression's search returns. |
| LineShapes.ChoiceIndex | server/index.js:616 | The slot is the letter's offset from 'A' or from 'a', so the upper-cased letter minus 'A', from 0 to 3. |
| LineShapes.StripNumber | server/index.js:645 | A line without a `N.` prefix is unchanged. A numbered line gives a suffix that starts after the number's dot. Everything between the dot and that suffix is white space, and the suffix does not start with white space, so it is the line with `N.` and the white space after it removed. |
| ContentParser.Classify | server/index.js:583-619 | Question lines carry a non-empty text and answer markers carry a slot below 4. The first check that matches wins: blank, question, option (capture trimmed again), marker, anything else. |
| ContentParser.ClassifyLine | server/index.js:585-619 | On a trimmed line, the line is skipped as blank exactly when it is empty. Question lines carry a non-empty text and answer markers carry a slot below 4. |
| ContentParser.Resolve | server/index.js:617 | `options[correctIndex] \|\| options[0]` is one of the options. It is the indexed option when that exists and is non-empty, and the first option otherwise. |
| ContentParser.FinalizeEffect | server/index.js:591-599 | Finalizing keeps the questions pushed so far and adds at most one. It adds one exactly when a question is pending and has at least four options. The added MCQ has the pending text, the first four options, the default marks, and the pending answer when it is non-empty, otherwise the first option (`correctAnswer || options[0]`). `server/index.js:622-631` is the same step at the end. |
| ContentParser.ApplyEffect | server/index.js:587-619 | Only a question line finalizes the pending question and starts a new one with no options and no answer. An option line appends its text to the options and keeps the answer. A marker keeps the options and, once some option exists, sets the answer to `Resolve` of its slot. Blank and unrecognised lines, and a marker before any option, change nothing. |
| ContentParser.ParseLine | server/index.js:587-619 | One pass of the loop body on a trimmed line mutates the four loop variables exactly as `Apply` does for that line's shape. |
| ContentParser.ParseMcqContent | server/index.js:576-634 | The loop that mutates the pending question, its options and its answer returns `McqQuestions(content, marks)`: the fold of the per-line steps over `split('\n')`, followed by finalizing the last pending question. |
| ContentParser.McqQuestions | server/index.js:576-634 | Every emitted MCQ has the marks passed in, a non-empty text and exactly four options, and its answer is one of them. |
| ContentParser.BlockEmitsFirstFour | server/index.js:588-631 | A question line followed by option lines emits, when finalized, one MCQ with that text and the first four options, and the first option as its answer. With fewer than four options it emits nothing: the block is dropped, not padded. |
| ContentParser.BlockWithMarkerEmitsFirstFour | server/index.js:588-631 | The same block followed by an answer marker emits one MCQ with the first four options and `Resolve` of the marker's slot as its answer. With fewer than four options it emits nothing. |
| ContentParser.McqCountAtMostQuestionLines | server/index.js:587-604 | No more MCQs are emitted than there are question lines. |
| ContentParser.ShortQuestion | server/index.js:641-653 | A line gives no question exactly when nothing is left after trimming and removing its number. Otherwise it gives a Short question with that text, no options, the fixed placeholder key and the default marks. |
| ContentParser.ShortQuestions | server/index.js:637-657 | At most one question per line, each Short with a non-empty text, no options, the placeholder key and the default marks. |
| ContentParser.UnnumberedLineKept | server/index.js:645-653 | A non-blank line that does not start with a digit becomes a question whose text is the whole trimmed line. |
| ContentParser.ParseShortContent | server/index.js:637-657 | The loop returns `ShortQuestions` of the content's lines: one question per line that keeps text after its number is removed, in line order. |
| ContentParser.StructureQuiz | server/index.js:524-573 | The draft exam holds the MCQ block's questions, then the short block's, and a block that is blank after trimming is not parsed. Its total is the sum of the questions' marks, and it keeps the title, the type and the duration as `parseInt` gives it. |
| ContentParser.QuizQuestions | server/index.js:528-540 | Every MCQ comes before every short question. Each question carries its block's marks. A blank MCQ block gives only short questions and a blank short block gives only MCQs. |
| ContentParser.QuizLayout | server/index.js:530-542 | The total is the MCQ marks times the MCQ count plus the short marks times the short count. |
| ExamModel.SumMarks | server/index.js:542 | The total is at least each question's marks, and it is 0 exactly when every question has 0 marks. |
| ExamModel.SumRecorded | server/index.js:405 | The `reduce` sum of the recorded marks is defined exactly when every record's marks are defined. `server/index.js:213-217` adds up the same way. |
| ExamModel.SumMarksAppend | server/index.js:542 | The marks of two question lists concatenated add up to the sum of their marks. |
| ExamModel.Percent | server/index.js:219-221 | The percentage is a number exactly when the obtained total is defined and the exam's total is not 0. |
| ExamModel.PercentShare | server/index.js:221 | A defined percentage times the total is 100 times the obtained marks. |
| Evaluator.Evaluate | server/index.js:81-119 | A failed call, or any call in the direct-similarity style, gives no marks. A failure gives the fixed feedback and a reply gives the service's. With marks out of 5 the raw score is kept as the marks and the similarity is a fifth of it. With a direct similarity the similarity is the reply's score. |
| Evaluator.FallbackResult | server/index.new.js:85-97 | On any failure inside the evaluator the result has similarity 0.7 exactly for a non-empty raw answer and 0 exactly for an empty one, no marks and the fixed feedback. `server/index.js:107-119` is the same. |
| Evaluator.ReplyResult | server/index.js:97-106 | With marks out of 5 the similarity is a fifth of the reply and the raw marks are kept. With a direct similarity (`server/index.new.js:80-84`) the reply is passed on and there are no marks. The feedback is the service's. |
| Evaluator.SimilarityInUnit | server/index.new.js:80-97 | The similarity lies between 0 and 1 whenever the service keeps to the range its prompt asks for. |
| Evaluator.AnswerOnlyMattersWhenFailed | server/index.js:107-119 | The answer influences the result only through the fallback's emptiness test. |
| Grading.Round | server/index.js:176 | `Math.round` gives the integer within half a unit, with halves rounded up. |
| Grading.Ceil | server/index.js:187 | `Math.ceil` gives the least integer not below its argument. |
| Grading.ScaledMarks | server/index.js:176 | `Math.round(similarity * marks)` is within half a mark of the exact product. For a similarity in [0, 1] it lies in [0, marks]. |
| Grading.FallbackMarks | server/index.js:187 | `Math.ceil(marks * 0.7)` is 70% of the marks rounded up, never more than the marks, and positive when the marks are. |
| Grading.LookupAnswer | server/index.js:151 | A question missing from the answers map has the empty answer, and any other has its given answer. |
| Grading.BatchRecord | server/index.js:149-211 | The record carries the question's id, text, type, maximum marks and key, and the answer given. Its marks are always defined: a blank short answer gets 0. Its similarity is defined exactly when the question is an MCQ or the trimmed answer is non-empty. |
| Grading.SequentialRecord | server/index.js:359-396 | The record carries the question's id, text, type, maximum marks and key, and the answer given. It never has a similarity. An MCQ always gets defined marks, and a short answer is never marked correct. |
| Grading.BatchRecords | server/index.js:149-211 | There is one record per exam question, in the exam's order. Each record carries that question's id, text, type, maximum marks and key, and the answer given for it. |
| Grading.Aggregate | server/index.js:213-217 | The `forEach` collects the records unchanged and adds their marks up to `SumRecorded`, the `reduce` sum. An undefined term makes the total undefined. |
| Grading.McqRule | server/index.js:161-170 | In both paths an MCQ is correct exactly when the trimmed answer equals the trimmed key, case-sensitively. It gets full marks or none whatever the evaluator does, with similarity 1 or 0 in the batch path. |
| Grading.BatchBlankShort | server/index.new.js:149-175 | A short answer that is blank after trimming gets 0 marks, is incorrect and has no similarity. Its record is the same whatever the evaluator would have done. |
| Grading.BatchScoredShort | server/index.js:173-183 | A non-blank short answer is correct exactly when the similarity is at least 0.7. It gets the rounded similarity times the marks, and the evaluator's similarity and feedback. |
| Grading.BatchRejectedShort | server/index.js:184-195 | When the evaluator call is rejected, a non-blank short answer is marked correct with 70% of the marks rounded up, the fixed feedback and similarity 0.7. |
| Grading.BatchMarksBounded | server/index.js:156-197 | With a similarity in [0, 1], every batch record's marks are defined and lie between 0 and the question's maximum. |
| Grading.EvaluatedCallPlausible | server/index.new.js:80-97 | Calls answered by the evaluator have a similarity in [0, 1] when the service keeps to its range, so the bound above applies to them. |
| Grading.SequentialStoresRawMarks | server/index.js:370-376 | For every short answer, blank or not, and every reply of the service, the sequential record stores the reply's raw marks out of 5 and its feedback, and it is not correct. |
| Grading.SequentialBlankMayScore | server/index.js:370-376 | As a consequence, a 1-mark question answered with a blank answer can record 5 marks, which exceeds the maximum, and the answer remains incorrect. |
| Grading.SequentialShortRecord | server/index.js:370-382 | The sequential path never marks a short answer correct. After the evaluator's internal fallback the record's marks are undefined. After a rejected call they are 70% of the maximum rounded up. |
| Grading.SumBounded | server/index.js:213-217 | Records whose marks are defined and bounded add up to a defined total between 0 and the sum of their maximum marks. |
| Grading.BatchTotalBounded | server/index.new.js:127-195 | With plausible similarities the batch total is defined and lies between 0 and the sum of the questions' marks. |
| Grading.PercentBounded | server/index.js:219-221 | A total between 0 and the exam's (non-zero) total marks gives a percentage between 0 and 100. |
| Sessions.Started | server/index.js:297-310 | A started session is in progress with no answers, index 0 and no duration, started now, and it satisfies the session invariant. |
| Sessions.BatchSession | server/index.js:213-246 | The batch session holds the graded records at index 0. It is completed, with `marks_obtained` their `reduce` sum, the percentage of that over the exam's total, the exam's total, the duration in seconds, started that many seconds before now and completed now. |
| Sessions.Finished | server/index.js:403-412 | Completing keeps the records, the index, the stored total marks and the start time. It writes the completed status, the completion time, the sum of the recorded marks, its percentage and `Math.floor` of the elapsed seconds. A session whose every question is answered, in order, with the exam's total, then satisfies the invariant. |
| Sessions.SubmitAsWritten | server/index.js:353-412 | The handler as written, with no status check. It fails for want of a current question exactly when the index is past the questions, and with the invalid-id error exactly when the id is not the current question's. Otherwise it succeeds, whatever the session's status, and it appends one record for the current question, keeps the earlier ones, advances the index by one, and is completed exactly when it already was or the index reaches the question count. |
| Sessions.FirstQuestion | server/index.js:314-326 | The question returned is the first one, at index 0. There is none exactly when the exam has no questions, where the handler fails after saving. |
| Sessions.BatchSessionFacts | server/index.new.js:197-215 | The batch session is completed, with one record per question and `marks_obtained` equal to their sum. Its start time is `duration_taken` seconds before now. With plausible similarities and a stored total equal to the sum of the question marks, its percentage lies in [0, 100]. |
| Sessions.Submit | server/index.js:353-411 | This is the corrected transition: a completed session refuses every submission. |
| Sessions.NextQuestion | server/index.js:399-446 | There is a next question exactly when the session is still in progress and its new index is inside the exam. It is then the view of the question at that index. Otherwise the handler gives the completion reply instead. |
| Sessions.SubmitEffect | server/index.js:353-411 | A submission is accepted exactly when the session is in progress, has a current question and the id matches it. An accepted submission appends exactly one record for that question and advances the index by exactly one. The session completes exactly when the index reaches the question count, and only then are the total (the sum of the recorded marks) and the percentage written. |
| Sessions.WrongIdRefused | server/index.js:353-357 | A submission for any question but the current one is refused with the invalid-id error. |
| Sessions.SubmitPreservesValid | server/index.js:384-411 | Every accepted submission keeps the invariant. The invariant says: the index counts the records, the records are for the exam's first questions in order, the session is completed exactly when every question is answered, and while in progress no result is written. |
| Sessions.SubmitAgreesOnValid | server/index.js:338-447 | On any session satisfying the invariant, the added status check changes nothing while the session is in progress. A completed one is refused by both versions: the corrected one says it is completed, the one as written finds no current question. |
| Sessions.BatchSessionReopened | server/index.js:353-357 | As written, a session completed by the batch path still accepts an answer to the first question, and its records grow past the question count. The corrected transition refuses it. |
| Sessions.ReopenedScoresPastTotal | server/index.js:403-409 | As written, answering a reopened 1-mark exam again records 2 marks and 200%. |
| Sessions.SubmitAccepts | server/index.js:384-412 | A submission to a session in progress, for its current question, pushes that question's sequential record, advances the index, and writes the results only if it was the last question. |
| Sessions.ExamSession.Start | server/index.js:297-310 | The constructed session's fields are the started state, which satisfies the invariant. |
| Sessions.ExamSession.SubmitAll | server/index.js:213-246 | The constructed session's fields are the batch session of the graded records and their aggregated total. |
| Sessions.ExamSession.Push | server/index.js:384-400 | The record is appended and the question index advanced by one, and every other field stays unchanged. |
| Sessions.ExamSession.Complete | server/index.js:403-412 | The total of the recorded marks, the percentage, the completed status, the completion time and `Math.floor` of the elapsed seconds are written, and every other field stays unchanged. |
| Sessions.ExamSession.SubmitAnswer | server/index.js:338-447 | The handler on the session object, with the status check. An accepted submission leaves the fields equal to `Submit`'s new state and returns the next question or none. A refused one leaves every field unchanged and returns `Submit`'s error. |

## Left out

- HTTP routing, CORS, static files, the database, the Mongoose `save` and lookups, and the delete cascade are left out. Sessions and exams are values passed in.
  - A missing session or exam (status 404) is therefore not modelled.
  - Mongoose's refusal to store a `NaN` total is not modelled either: the model keeps the value as `None`.
- The language-model prompt, its request and its JSON parsing are left out. The service's reply, or its failure, is a parameter (`Evaluator.ServiceOutcome`), and a rejected evaluator call at the call site is `Grading.Call.Rejected`.
  - For string answers, `Call.Rejected` cannot happen as written. Before its `try` the evaluator only interpolates strings into the prompt (`server/index.js:38-79`). Everything after that is inside the `try` (`server/index.js:81-106`). Its `catch` (`server/index.js:107-119`) only reads the answer's length and builds the fallback result, which cannot throw. The model still keeps the call sites' branches for a rejected call, as they are written.
- `Promise.all` is modelled as an ordered map (`Grading.BatchRecords`), because no question's grading depends on another's. Concurrency is left out.
- Clocks are integer parameters in milliseconds: `now`, `later` and the duration in seconds.
- Floating point: marks, similarities and percentages are exact reals, and `Math.round` and `Math.ceil` are exact on them.
  - `Math.ceil(marks * 0.7)` agrees with the exact value for whole marks below 2^49. When 0.7 times the marks is a whole number k, the double product rounds to k or to the double just below it, and its ceiling is k. Otherwise the exact value is at least 0.1 from either integer around it. Below 2^49 the product's error is under 0.06, which is less than that gap. Near 2^50 the error reaches about 0.11, and the two can differ there.
  - The rounding of the doubles inside `similarity * marks` is not modelled.
- Coercion of marks that arrive as strings from the form is left out. Marks are natural numbers.
- ContentParser.StructureQuiz takes the exam's duration as the integer `parseInt(duration)` gives (`server/index.js:548`, `server/index.js:560`). Parsing the form's string is left out: a `NaN` for text without leading digits and the trailing characters it drops are not modelled.
- Student records (find or create by e-mail) and the ungraded extra fields are left out.
  - The extra fields are `grading_details` other than `similarity_score`, `key_concepts_matched`, confidence, model name and processing time.
  - None of them influence a grade.
- Answers that are not strings are left out. An `answer.trim()` that throws on a non-string is a server error.
- A question without an `_id` is left out; the batch path would use its index instead. Stored questions always have their `_id`.
- ContentParser.StructureQuiz returns the exam the handler builds, but the handler as written never stores one. The Exam schema (`server/models/Exam.js:57-61`) requires a `teacher`, which the handler does not set, so `exam.save()` (`server/index.js:553`) rejects every exam and the handler answers with status 500. The model leaves out storing, and it does not model that refusal.
- ContentParser.StructureQuiz does not reject an exam with no parsed questions, because the handler does not check for one.
- Sessions.BatchSessionFacts: the percentage bound assumes the stored `total_marks` equals the sum of question marks, as `/api/structure-quiz` computes it. With `total_marks` 0 the percentage is `NaN` or infinite (`None`).
- Evaluator.ReplyResult: the model assumes a successful reply is a JSON object with a numeric score. A reply without that field would give a `NaN` similarity, and it is not modelled.
- Sessions.FirstQuestion: the handler's failure after saving the session (it reads `_id` of an absent first question) is a `None` result here, not an error response.
- Sessions.ExamSession.SubmitAnswer follows the corrected transition. The handler as written is `Sessions.SubmitAsWritten` (see Findings).
- The client pages, their timers and anti-cheat warnings, the results dashboard's statistics and the operations scripts are not part of this model.

## Findings

| source | as written | input that shows it | evidently intended | confidence | as-written member | corrected member |
|---|---|---|---|---|---|---|
| server/index.js:353-357 | `submit-answer` never checks the session's status. A session that `submit-exam` created as completed keeps the default `current_question_index` 0, so it accepts an answer for its first question again. The handler then appends a record and recomputes the total over all records. | A session completed by `submit-exam` for a one-question exam worth 1 mark, answered correctly, is then sent the same answer through `submit-answer`. It records 2 marks of 1, which is 200%, and holds two records for one question. | A completed session is final: a submission to it is refused and changes nothing. | not executed | Sessions.ReopenedScoresPastTotal | Sessions.Submit |
