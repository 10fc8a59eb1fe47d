/** How each answer is marked on the exam server's two submission paths:
    the batch path of `/api/student/submit-exam` (the same in both servers) and the
    one-question-at-a-time path of `/api/student/submit-answer`. */
module Grading {
  import opened Wrappers
  import opened Text
  import opened ExamModel
  import opened Evaluator

  /** `Math.round`: the nearest integer, halves rounded up. */
  function Round(x: real): (r: int)
    ensures r as real - 0.5 <= x < r as real + 0.5
  {
    (x + 0.5).Floor
  }

  /** `Math.ceil`: the least integer not below `x`. */
  function Ceil(x: real): (r: int)
    ensures x <= r as real < x + 1.0
  {
    -((-x).Floor)
  }

  /** `Math.round(similarity * marks)`: the question's marks scaled by the
      similarity, to the nearest integer. */
  function ScaledMarks(similarity: real, marks: nat): (r: int)
    ensures r as real - 0.5 <= similarity * marks as real < r as real + 0.5
    ensures 0.0 <= similarity <= 1.0 ==> 0 <= r <= marks
  {
    ScaledBounds(similarity, marks);
    Round(similarity * marks as real)
  }

  lemma ScaledBounds(s: real, m: nat)
    ensures 0.0 <= s <= 1.0 ==> 0.0 <= s * m as real <= m as real
  {
    if 0.0 <= s <= 1.0 {
      assert s * m as real <= 1.0 * m as real;
    }
  }

  /** The similarity from which a short answer counts as correct. */
  const PassSimilarity: real := 0.7

  /** The evaluator call as the call site sees it: its result, or a rejection
      that the call site's own `catch` handles. */
  datatype Call = Resolved(evaluation: Evaluation) | Rejected

  /** The call-site fallback: 70% of the question's marks, rounded up. */
  function FallbackMarks(max: nat): (m: nat)
    ensures max as real * 0.7 <= m as real < max as real * 0.7 + 1.0
    ensures m <= max && (max > 0 ==> m > 0)
  {
    Ceil(max as real * 0.7)
  }

  /** `studentAnswer.trim() === correctAnswer.trim()`: exact and case-sensitive. */
  predicate McqMatches(answer: string, key: string) {
    Trim(answer) == Trim(key)
  }

  /** Record `r` is about question `eq` and answer `answer`: its identity
      fields are the question's and the answer is stored as given. */
  predicate Describes(r: AnswerRecord, eq: ExamQuestion, answer: string) {
    r.questionId == eq.id && r.questionText == eq.question.text && r.kind == eq.question.kind
    && r.studentAnswer == answer && r.correctAnswer == eq.question.answer
    && r.maxMarks == eq.question.marks
  }

  /** A record of question `eq` with the grading outcome filled in. */
  function Graded(eq: ExamQuestion, answer: string, correct: bool, marks: Option<real>,
                  feedback: string, similarity: Option<real>): AnswerRecord
  {
    AnswerRecord(eq.id, eq.question.text, eq.question.kind, answer, eq.question.answer,
                 correct, marks, eq.question.marks, feedback, similarity)
  }

  // ---------------------------------------------------------------------------
  // The batch path

  /** The record the batch path builds for one question. A short answer that
      is blank once trimmed is not sent to the evaluator, so `call` is then
      never looked at. */
  function BatchRecord(eq: ExamQuestion, answer: string, call: Call): (r: AnswerRecord)
    ensures Describes(r, eq, answer)
    ensures r.marks.Some? && r.similarity.Some? == (eq.question.kind == MCQ || Trim(answer) != "")
  {
    var q := eq.question;
    match q.kind
    case MCQ =>
      var correct := McqMatches(answer, q.answer);
      Graded(eq, answer, correct, Some(if correct then q.marks as real else 0.0),
             if correct then "Correct answer" else "Incorrect answer",
             Some(if correct then 1.0 else 0.0))
    case Short =>
      if Trim(answer) == "" then Graded(eq, answer, false, Some(0.0), "", None)
      else match call
        case Resolved(e) =>
          Graded(eq, answer, e.similarity >= PassSimilarity, Some(ScaledMarks(e.similarity, q.marks) as real),
                 e.feedback, Some(e.similarity))
        case Rejected =>
          Graded(eq, answer, true, Some(FallbackMarks(q.marks) as real), FallbackFeedback, Some(0.7))
  }

  /** `answers[questionId] || ''`: a missing answer is the empty string. */
  function LookupAnswer(answers: map<string, string>, id: string): (a: string)
    ensures id !in answers ==> a == ""
    ensures id in answers ==> a == answers[id]
  {
    if id in answers then answers[id] else ""
  }

  /** The batch path's records: one per exam question, in the exam's order,
      each carrying that question's identity and the answer given for it. */
  function BatchRecords(questions: seq<ExamQuestion>, answers: map<string, string>, calls: seq<Call>)
    : (r: seq<AnswerRecord>)
    requires |calls| == |questions|
    ensures |r| == |questions|
    ensures forall i | 0 <= i < |r| ::
      r[i].questionId == questions[i].id && r[i].questionText == questions[i].question.text
      && r[i].kind == questions[i].question.kind && r[i].maxMarks == questions[i].question.marks
      && r[i].studentAnswer == LookupAnswer(answers, questions[i].id)
      && r[i].correctAnswer == questions[i].question.answer
  {
    seq(|questions|, i requires 0 <= i < |questions| =>
      BatchRecord(questions[i], LookupAnswer(answers, questions[i].id), calls[i]))
  }

  /** The `forEach` that collects the records and adds up their marks. */
  method Aggregate(results: seq<AnswerRecord>) returns (graded: seq<AnswerRecord>, total: Option<real>)
    ensures graded == results
    ensures total == SumRecorded(results)
  {
    graded := [];
    total := Some(0.0);
    for i := 0 to |results|
      invariant graded == results[..i]
      invariant total == SumRecorded(results[..i])
    {
      assert results[..i + 1][..i] == results[..i];
      graded := graded + [results[i]];
      total := match (total, results[i].marks)
        case (Some(t), Some(m)) => Some(t + m)
        case _ => None;
    }
    assert results[..|results|] == results;
  }

  // ---------------------------------------------------------------------------
  // The sequential path

  /** The record `submit-answer` appends for the current question. Short
      answers always go to the evaluator, blank or not, its `marks` field is
      stored as it is (out of 5, or absent), and they are never marked correct. */
  function SequentialRecord(eq: ExamQuestion, answer: string, call: Call): (r: AnswerRecord)
    ensures Describes(r, eq, answer)
    ensures r.similarity.None?
    ensures eq.question.kind == MCQ ==> r.marks.Some?
    ensures eq.question.kind == Short ==> !r.isCorrect
  {
    var q := eq.question;
    match q.kind
    case MCQ =>
      var correct := McqMatches(answer, q.answer);
      Graded(eq, answer, correct, Some(if correct then q.marks as real else 0.0),
             if correct then "Correct answer!" else "Incorrect answer. Review the topic.", None)
    case Short =>
      match call
      case Resolved(e) => Graded(eq, answer, false, e.marks, e.feedback, None)
      case Rejected => Graded(eq, answer, false, Some(FallbackMarks(q.marks) as real), FallbackFeedback, None)
  }

  // ---------------------------------------------------------------------------
  // Properties of the rules

  /** Both paths grade an MCQ the same way: correct exactly when the trimmed
      answer equals the trimmed key, with full marks or none, whatever the evaluator. */
  lemma McqRule(eq: ExamQuestion, answer: string, call: Call)
    requires eq.question.kind == MCQ
    ensures var b := BatchRecord(eq, answer, call);
      (b.isCorrect <==> Trim(answer) == Trim(eq.question.answer))
      && b.marks == Some(if b.isCorrect then eq.question.marks as real else 0.0)
      && b.similarity == Some(if b.isCorrect then 1.0 else 0.0)
    ensures var s := SequentialRecord(eq, answer, call);
      (s.isCorrect <==> Trim(answer) == Trim(eq.question.answer))
      && s.marks == Some(if s.isCorrect then eq.question.marks as real else 0.0)
  {
  }

  /** A blank short answer in the batch path scores nothing, is incorrect and
      does not depend on the evaluator. */
  lemma BatchBlankShort(eq: ExamQuestion, answer: string, call: Call, other: Call)
    requires eq.question.kind == Short && Trim(answer) == ""
    ensures var r := BatchRecord(eq, answer, call);
      r.marks == Some(0.0) && !r.isCorrect && r.similarity.None?
    ensures BatchRecord(eq, answer, call) == BatchRecord(eq, answer, other)
  {
  }

  /** A graded short answer in the batch path: the similarity scales the
      question's marks to the nearest integer, and the answer is correct
      exactly when the similarity reaches 0.7. */
  lemma BatchScoredShort(eq: ExamQuestion, answer: string, e: Evaluation)
    requires eq.question.kind == Short && Trim(answer) != ""
    ensures var r := BatchRecord(eq, answer, Resolved(e));
      (r.isCorrect <==> e.similarity >= 0.7)
      && r.marks == Some(ScaledMarks(e.similarity, eq.question.marks) as real)
      && r.similarity == Some(e.similarity) && r.feedback == e.feedback
  {
  }

  /** When the evaluator call is rejected the batch path is lenient: 70% of
      the marks rounded up, and correct. */
  lemma BatchRejectedShort(eq: ExamQuestion, answer: string)
    requires eq.question.kind == Short && Trim(answer) != ""
    ensures var r := BatchRecord(eq, answer, Rejected);
      r.isCorrect && r.marks == Some(FallbackMarks(eq.question.marks) as real)
      && r.feedback == FallbackFeedback && r.similarity == Some(0.7)
  {
  }

  /** A record whose marks are present and between 0 and its maximum. */
  predicate Bounded(r: AnswerRecord) {
    r.marks.Some? && 0.0 <= r.marks.value <= r.maxMarks as real
  }

  /** The evaluator kept its similarity within 0 and 1. */
  predicate Plausible(call: Call) {
    call.Resolved? ==> 0.0 <= call.evaluation.similarity <= 1.0
  }

  /** Every batch record has marks between 0 and the question's maximum
      when the similarity is a fraction. */
  lemma BatchMarksBounded(eq: ExamQuestion, answer: string, call: Call)
    requires Plausible(call)
    ensures Bounded(BatchRecord(eq, answer, call))
  {
    if eq.question.kind == Short && Trim(answer) != "" && call.Resolved? {
      BatchScoredShort(eq, answer, call.evaluation);
    }
  }

  /** The evaluator's own similarity is a fraction when the service keeps to
      its range, so the bound holds for the calls the evaluator resolves. */
  lemma EvaluatedCallPlausible(style: ScoringStyle, outcome: ServiceOutcome, answer: string)
    requires outcome.Answered? ==> InRange(style, outcome.score)
    ensures Plausible(Resolved(Evaluate(style, outcome, answer)))
  {
    SimilarityInUnit(style, outcome, answer);
  }

  /** The sequential path stores the service's raw marks out of 5, even for a
      blank answer and beyond the question's maximum. */
  lemma SequentialStoresRawMarks(eq: ExamQuestion, answer: string, score: real, feedback: string)
    requires eq.question.kind == Short
    ensures var r := SequentialRecord(eq, answer, Resolved(Evaluate(MarksOutOfFive, Answered(score, feedback), answer)));
      r.marks == Some(score) && r.feedback == feedback && !r.isCorrect
  {
  }

  /** In particular a blank answer to a one-mark question can be stored with
      5 marks, past the question's maximum. */
  lemma SequentialBlankMayScore(eq: ExamQuestion)
    requires eq.question.kind == Short && eq.question.marks == 1
    ensures var r := SequentialRecord(eq, "", Resolved(Evaluate(MarksOutOfFive, Answered(5.0, ""), "")));
      r.marks == Some(5.0) && !r.isCorrect && !Bounded(r)
  {
    SequentialStoresRawMarks(eq, "", 5.0, "");
  }

  /** In the sequential path the evaluator's own fallback leaves the record's
      marks undefined, and a short answer is never marked correct. */
  lemma SequentialShortRecord(eq: ExamQuestion, answer: string, call: Call)
    requires eq.question.kind == Short
    ensures !SequentialRecord(eq, answer, call).isCorrect
    ensures call == Resolved(Evaluate(MarksOutOfFive, Failed, answer)) ==> SequentialRecord(eq, answer, call).marks.None?
    ensures call == Rejected ==> SequentialRecord(eq, answer, call).marks == Some(FallbackMarks(eq.question.marks) as real)
  {
  }

  // ---------------------------------------------------------------------------
  // Totals

  /** The sum of the records' maximum marks. */
  function MaxTotal(records: seq<AnswerRecord>): nat {
    if records == [] then 0 else MaxTotal(records[..|records| - 1]) + records[|records| - 1].maxMarks
  }

  /** Bounded records add up to a defined total between 0 and their maxima. */
  lemma {:induction false} SumBounded(records: seq<AnswerRecord>)
    requires forall i | 0 <= i < |records| :: Bounded(records[i])
    ensures SumRecorded(records).Some?
    ensures 0.0 <= SumRecorded(records).value <= MaxTotal(records) as real
    decreases |records|
  {
    if records != [] {
      var init := records[..|records| - 1];
      assert forall i | 0 <= i < |init| :: init[i] == records[i];
      SumBounded(init);
      assert Bounded(records[|records| - 1]);
    }
  }

  /** The maxima of records made one per question add up to the questions' marks. */
  lemma {:induction false} MaxTotalIsSumMarks(records: seq<AnswerRecord>, qs: seq<Question>)
    requires |records| == |qs|
    requires forall i | 0 <= i < |qs| :: records[i].maxMarks == qs[i].marks
    ensures MaxTotal(records) == SumMarks(qs)
    decreases |qs|
  {
    if qs != [] {
      var n := |qs| - 1;
      assert forall i | 0 <= i < n :: records[..n][i] == records[i] && qs[..n][i] == qs[i];
      MaxTotalIsSumMarks(records[..n], qs[..n]);
    }
  }

  /** With plausible similarities a batch exam's total lies between 0 and the
      sum of its questions' marks. */
  lemma BatchTotalBounded(questions: seq<ExamQuestion>, answers: map<string, string>, calls: seq<Call>)
    requires |calls| == |questions|
    requires forall i | 0 <= i < |calls| :: Plausible(calls[i])
    ensures var total := SumRecorded(BatchRecords(questions, answers, calls));
      total.Some? && 0.0 <= total.value <= SumMarks(Payloads(questions)) as real
  {
    var records := BatchRecords(questions, answers, calls);
    forall i | 0 <= i < |records| ensures Bounded(records[i]) {
      BatchMarksBounded(questions[i], LookupAnswer(answers, questions[i].id), calls[i]);
    }
    SumBounded(records);
    MaxTotalIsSumMarks(records, Payloads(questions));
  }

  /** A percentage of a total no larger than the maximum lies between 0 and 100. */
  lemma PercentBounded(obtained: real, total: nat)
    requires total > 0 && 0.0 <= obtained <= total as real
    ensures var p := Percent(Some(obtained), total); p.Some? && 0.0 <= p.value <= 100.0
  {
    var p := Percent(Some(obtained), total).value;
    PercentShare(obtained, total);
    assert p * (total as real) <= 100.0 * (total as real);
  }
}
