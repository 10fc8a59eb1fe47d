/** The records the server stores, after the Mongoose schemas of the exam,
    its question subdocuments and the exam session. */
module ExamModel {
  import opened Wrappers

  /** Question `type`: `'MCQ'` or `'Short'`. */
  datatype Kind = MCQ | Short

  /** Exam `exam_type`: informational only, grading goes by each question's kind. */
  datatype ExamType = McqExam | ShortExam | MixedExam

  /** A question as the parsers build it: `options` is empty for a short
      question, `answer` is the key (an option's text for an MCQ). */
  datatype Question = Question(kind: Kind, text: string, options: seq<string>, answer: string, marks: nat)

  /** A question subdocument of a stored exam, with the `_id` the database gave it. */
  datatype ExamQuestion = ExamQuestion(id: string, question: Question)

  /** A stored exam. Exams are created once and never updated; they are only deleted. */
  datatype Exam = Exam(title: string, examType: ExamType, duration: int, totalMarks: nat,
                       questions: seq<ExamQuestion>)

  datatype Status = InProgress | Completed

  /** One element of a session's `answers`. `marks` is `None` where the
      server stores an undefined `marks_obtained`, and `similarity` is the
      `grading_details.similarity_score`, absent where none is written. */
  datatype AnswerRecord = AnswerRecord(
    questionId: string,
    questionText: string,
    kind: Kind,
    studentAnswer: string,
    correctAnswer: string,
    isCorrect: bool,
    marks: Option<real>,
    maxMarks: nat,
    feedback: string,
    similarity: Option<real>)

  /** `questions.reduce((sum, q) => sum + q.marks, 0)`. */
  function SumMarks(qs: seq<Question>): (r: nat)
    ensures forall i | 0 <= i < |qs| :: qs[i].marks <= r
    ensures r == 0 <==> forall i | 0 <= i < |qs| :: qs[i].marks == 0
  {
    if qs == [] then 0 else SumMarks(qs[..|qs| - 1]) + qs[|qs| - 1].marks
  }

  lemma {:induction false} SumMarksAppend(a: seq<Question>, b: seq<Question>)
    ensures SumMarks(a + b) == SumMarks(a) + SumMarks(b)
    decreases |b|
  {
    if b == [] {
      assert a + b == a;
    } else {
      SumMarksAppend(a, b[..|b| - 1]);
      assert (a + b)[..|a + b| - 1] == a + b[..|b| - 1];
    }
  }

  function Payloads(qs: seq<ExamQuestion>): (r: seq<Question>)
    ensures |r| == |qs| && forall i | 0 <= i < |qs| :: r[i] == qs[i].question
  {
    seq(|qs|, i requires 0 <= i < |qs| => qs[i].question)
  }

  /** The exam's stored total is the sum of its questions' marks, as the
      quiz-structuring endpoint computes it. */
  predicate TotalIsSum(exam: Exam) {
    exam.totalMarks == SumMarks(Payloads(exam.questions))
  }

  /** The answers' `reduce((sum, a) => sum + a.marks_obtained, 0)`: an
      undefined term makes the sum `NaN`, here `None`. */
  function SumRecorded(answers: seq<AnswerRecord>): (r: Option<real>)
    ensures r.Some? <==> forall i | 0 <= i < |answers| :: answers[i].marks.Some?
  {
    if answers == [] then Some(0.0)
    else match SumRecorded(answers[..|answers| - 1])
      case None => None
      case Some(total) =>
        match answers[|answers| - 1].marks
        case None => None
        case Some(m) => Some(total + m)
  }

  /** `(obtained / total) * 100`; `None` where JavaScript gives `NaN` or an
      infinity (no obtained total, or a zero total). */
  function Percent(obtained: Option<real>, total: nat): (r: Option<real>)
    ensures r.Some? <==> obtained.Some? && total > 0
  {
    if obtained.Some? && total > 0 then Some(obtained.value / (total as real) * 100.0) else None
  }

  /** A defined percentage is the share of the total, times 100. */
  lemma PercentShare(obtained: real, total: nat)
    requires total > 0
    ensures Percent(Some(obtained), total).value * (total as real) == obtained * 100.0
  {
  }
}
