/** The life of an exam session: created already completed by the batch
    submission, or started and then answered one question at a time. Times
    are milliseconds since the epoch, passed in by the caller. */
module Sessions {
  import opened Wrappers
  import opened Text
  import opened ExamModel
  import opened Evaluator
  import opened Grading

  /** The fields of an exam-session document that the handlers write. */
  datatype SessionState = SessionState(
    status: Status,
    index: nat,
    answers: seq<AnswerRecord>,
    marksObtained: Option<real>,
    percentage: Option<real>,
    totalMarks: nat,
    startedAt: int,
    completedAt: Option<int>,
    durationTaken: Option<int>)

  /** What a handler returns about a question to show. */
  datatype QuestionView = QuestionView(questionId: string, text: string, kind: Kind,
                                       options: seq<string>, index: nat, totalQuestions: nat)

  datatype SubmitError =
    | NoCurrentQuestion   // the current index is past the exam's questions: a server error
    | InvalidQuestionId   // the submitted id is not the current question's
    | AlreadyCompleted    // the session is completed (the corrected handler only)

  // ---------------------------------------------------------------------------
  // Starting and batch submission

  /** The session `start-exam` saves. */
  function Started(exam: Exam, now: int): (r: SessionState)
    ensures Valid(exam, r)
    ensures r.status == InProgress && r.answers == [] && r.startedAt == now && r.durationTaken.None?
  {
    SessionState(InProgress, 0, [], Some(0.0), Some(0.0), exam.totalMarks, now, None, None)
  }

  function View(exam: Exam, i: nat): (v: QuestionView)
    requires i < |exam.questions|
    ensures v.index == i && v.totalQuestions == |exam.questions| && v.questionId == exam.questions[i].id
  {
    var eq := exam.questions[i];
    QuestionView(eq.id, eq.question.text, eq.question.kind, eq.question.options, i, |exam.questions|)
  }

  /** The question `start-exam` answers with: the first one. With no
      questions the handler fails after the session has been saved. */
  function FirstQuestion(exam: Exam): (r: Option<QuestionView>)
    ensures r.None? <==> exam.questions == []
    ensures r.Some? ==> r.value.index == 0 && r.value.questionId == exam.questions[0].id
  {
    if exam.questions == [] then None else Some(View(exam, 0))
  }

  /** The session the batch submission saves: completed at once, with one
      graded record per question and their total. The index is left at the
      schema default 0. */
  function BatchSession(exam: Exam, answers: map<string, string>, calls: seq<Call>,
                        now: int, durationTaken: int): (r: SessionState)
    requires |calls| == |exam.questions|
    ensures r.answers == BatchRecords(exam.questions, answers, calls) && r.index == 0
    ensures r.status == Completed && r.marksObtained == SumRecorded(r.answers)
    ensures r.percentage == Percent(r.marksObtained, exam.totalMarks) && r.totalMarks == exam.totalMarks
    ensures r.startedAt == now - durationTaken * 1000 && r.completedAt == Some(now)
            && r.durationTaken == Some(durationTaken)
  {
    var records := BatchRecords(exam.questions, answers, calls);
    var total := SumRecorded(records);
    SessionState(Completed, 0, records, total, Percent(total, exam.totalMarks), exam.totalMarks,
                 now - durationTaken * 1000, Some(now), Some(durationTaken))
  }

  /** A batch session is complete, holds a record per question, and with
      plausible evaluator similarities and a total that is the sum of the
      questions' marks its percentage lies between 0 and 100. */
  lemma BatchSessionFacts(exam: Exam, answers: map<string, string>, calls: seq<Call>, now: int, d: int)
    requires |calls| == |exam.questions|
    requires forall i | 0 <= i < |calls| :: Plausible(calls[i])
    ensures var s := BatchSession(exam, answers, calls, now, d);
      s.status == Completed && |s.answers| == |exam.questions| && s.marksObtained == SumRecorded(s.answers)
      && s.marksObtained.Some? && s.startedAt == now - d * 1000
    ensures var s := BatchSession(exam, answers, calls, now, d);
      TotalIsSum(exam) && exam.totalMarks > 0 ==>
        s.percentage.Some? && 0.0 <= s.percentage.value <= 100.0
  {
    var s := BatchSession(exam, answers, calls, now, d);
    BatchTotalBounded(exam.questions, answers, calls);
    if TotalIsSum(exam) && exam.totalMarks > 0 {
      PercentBounded(s.marksObtained.value, exam.totalMarks);
    }
  }

  // ---------------------------------------------------------------------------
  // Answering one question at a time

  /** `answers.push(record)` and the advance of the question index. */
  function Pushed(s: SessionState, rec: AnswerRecord): SessionState {
    s.(index := s.index + 1, answers := s.answers + [rec])
  }

  /** The final results written when the last question has been answered. */
  function Finished(exam: Exam, s: SessionState, now: int): (r: SessionState)
    ensures r.answers == s.answers && r.index == s.index && r.startedAt == s.startedAt
            && r.totalMarks == s.totalMarks
    ensures r.status == Completed && r.completedAt == Some(now)
    ensures r.marksObtained == SumRecorded(s.answers) && r.percentage == Percent(r.marksObtained, exam.totalMarks)
    ensures r.durationTaken.Some?
            && r.durationTaken.value * 1000 <= now - s.startedAt < r.durationTaken.value * 1000 + 1000
    ensures (s.index == |s.answers| == |exam.questions| > 0 && IdsMatch(exam, s.answers)
             && s.totalMarks == exam.totalMarks) ==> Valid(exam, r)
  {
    var total := SumRecorded(s.answers);
    // Math.floor((now - started_at) / 1000); `/` on int floors for a positive divisor
    s.(marksObtained := total, percentage := Percent(total, exam.totalMarks), status := Completed,
       completedAt := Some(now), durationTaken := Some((now - s.startedAt) / 1000))
  }

  /** The session after the record of its current question is pushed: the
      index moves on, and after the last question the results are written. */
  function Accept(exam: Exam, s: SessionState, rec: AnswerRecord, now: int): SessionState {
    var t := Pushed(s, rec);
    if t.index >= |exam.questions| then Finished(exam, t, now) else t
  }

  /** `submit-answer` as it is written: it never looks at the session's status. */
  function SubmitAsWritten(exam: Exam, s: SessionState, questionId: string, answer: string,
                           call: Call, now: int): (r: Result<SessionState, SubmitError>)
    ensures r == Failure(NoCurrentQuestion) <==> s.index >= |exam.questions|
    ensures r == Failure(InvalidQuestionId) <==>
      s.index < |exam.questions| && exam.questions[s.index].id != questionId
    ensures r.Success? <==> s.index < |exam.questions| && exam.questions[s.index].id == questionId
    ensures r.Success? ==>
      r.value.index == s.index + 1 && |r.value.answers| == |s.answers| + 1
      && r.value.answers[..|s.answers|] == s.answers
      && Describes(r.value.answers[|s.answers|], exam.questions[s.index], answer)
      && r.value.startedAt == s.startedAt
      && (r.value.status == Completed <==> s.status == Completed || s.index + 1 >= |exam.questions|)
  {
    if s.index >= |exam.questions| then Failure(NoCurrentQuestion)
    else
      var eq := exam.questions[s.index];
      if eq.id != questionId then Failure(InvalidQuestionId)
      else Success(Accept(exam, s, SequentialRecord(eq, answer, call), now))
  }

  /** `submit-answer` with the missing status check: a completed session is final. */
  function Submit(exam: Exam, s: SessionState, questionId: string, answer: string,
                  call: Call, now: int): (r: Result<SessionState, SubmitError>)
    ensures s.status == Completed ==> r == Failure(AlreadyCompleted)
  {
    if s.status == Completed then Failure(AlreadyCompleted)
    else SubmitAsWritten(exam, s, questionId, answer, call, now)
  }

  /** What the handler answers after an accepted submission: the next
      question, or nothing once the exam is complete. */
  function NextQuestion(exam: Exam, s: SessionState): (r: Option<QuestionView>)
    ensures r.Some? <==> s.status == InProgress && s.index < |exam.questions|
    ensures r.Some? ==> r.value == View(exam, s.index) && r.value.index == s.index
  {
    if s.status == InProgress && s.index < |exam.questions| then Some(View(exam, s.index)) else None
  }

  /** The records are for the exam's first questions, in order. */
  predicate IdsMatch(exam: Exam, answers: seq<AnswerRecord>) {
    |answers| <= |exam.questions|
    && forall i | 0 <= i < |answers| :: answers[i].questionId == exam.questions[i].id
  }

  lemma IdsExtend(exam: Exam, answers: seq<AnswerRecord>, rec: AnswerRecord)
    requires IdsMatch(exam, answers) && |answers| < |exam.questions|
    requires rec.questionId == exam.questions[|answers|].id
    ensures IdsMatch(exam, answers + [rec])
  {
    var all := answers + [rec];
    forall i | 0 <= i < |all| ensures all[i].questionId == exam.questions[i].id {
      if i < |answers| {
        assert all[i] == answers[i];
      }
    }
  }

  /** The invariant of a session answered one question at a time. */
  predicate Valid(exam: Exam, s: SessionState) {
    s.index == |s.answers| && IdsMatch(exam, s.answers)
    && (s.status == Completed <==> 0 < s.index == |exam.questions|)
    && (s.status == InProgress ==> s.marksObtained == Some(0.0) && s.percentage == Some(0.0) && s.completedAt.None?)
    && (s.status == Completed ==>
          s.marksObtained == SumRecorded(s.answers) && s.percentage == Percent(s.marksObtained, exam.totalMarks)
          && s.completedAt.Some?)
    && s.totalMarks == exam.totalMarks
  }

  /** When a submission is accepted, and what it does: exactly one record for
      the current question is appended and the index moves on by one; the
      session completes exactly when the index reaches the question count,
      and only then are the total and the percentage written. */
  lemma SubmitEffect(exam: Exam, s: SessionState, questionId: string, answer: string, call: Call, now: int)
    requires Valid(exam, s)
    ensures var r := Submit(exam, s, questionId, answer, call, now);
      r.Success? <==> s.status == InProgress && s.index < |exam.questions| && exam.questions[s.index].id == questionId
    ensures var r := Submit(exam, s, questionId, answer, call, now);
      r.Success? ==>
        r.value.answers == s.answers + [SequentialRecord(exam.questions[s.index], answer, call)]
        && r.value.index == s.index + 1
        && (r.value.status == Completed <==> r.value.index == |exam.questions|)
        && (r.value.status == InProgress ==>
              r.value.marksObtained == s.marksObtained && r.value.percentage == s.percentage)
        && (r.value.status == Completed ==> r.value.marksObtained == SumRecorded(r.value.answers))
  {
  }

  /** A mismatched question id is refused, whatever the answer. */
  lemma WrongIdRefused(exam: Exam, s: SessionState, questionId: string, answer: string, call: Call, now: int)
    requires s.status == InProgress && s.index < |exam.questions| && exam.questions[s.index].id != questionId
    ensures Submit(exam, s, questionId, answer, call, now) == Failure(InvalidQuestionId)
  {
  }

  lemma SubmitPreservesValid(exam: Exam, s: SessionState, questionId: string, answer: string, call: Call, now: int)
    requires Valid(exam, s)
    ensures var r := Submit(exam, s, questionId, answer, call, now);
      r.Success? ==> Valid(exam, r.value)
  {
    var r := Submit(exam, s, questionId, answer, call, now);
    if r.Success? {
      var rec := SequentialRecord(exam.questions[s.index], answer, call);
      assert r.value.answers == s.answers + [rec];
      IdsExtend(exam, s.answers, rec);
    }
  }

  /** On the sessions `start-exam` creates the status check changes nothing:
      in progress both versions agree, and a valid completed session has no
      current question left, so both refuse it and neither changes it. */
  lemma SubmitAgreesOnValid(exam: Exam, s: SessionState, questionId: string, answer: string, call: Call, now: int)
    requires Valid(exam, s)
    ensures s.status == InProgress ==>
      Submit(exam, s, questionId, answer, call, now) == SubmitAsWritten(exam, s, questionId, answer, call, now)
    ensures s.status == Completed ==>
      Submit(exam, s, questionId, answer, call, now) == Failure(AlreadyCompleted)
      && SubmitAsWritten(exam, s, questionId, answer, call, now) == Failure(NoCurrentQuestion)
  {
  }

  /** As written, a session the batch path completed still accepts an answer
      to the first question: its records grow past the question count. */
  lemma BatchSessionReopened(exam: Exam, answers: map<string, string>, calls: seq<Call>, now: int, d: int,
                             answer: string, call: Call, later: int)
    requires |calls| == |exam.questions| && |exam.questions| >= 1
    ensures var s := BatchSession(exam, answers, calls, now, d);
      var r := SubmitAsWritten(exam, s, exam.questions[0].id, answer, call, later);
      r.Success? && |r.value.answers| == |exam.questions| + 1 && r.value.status == Completed
    ensures Submit(exam, BatchSession(exam, answers, calls, now, d), exam.questions[0].id, answer, call, later)
         == Failure(AlreadyCompleted)
  {
  }

  /** A one-question exam worth 1 mark, answered correctly in batch. */
  function OneMarkExam(): Exam {
    Exam("Quiz", McqExam, 10, 1, [ExamQuestion("q1", Question(MCQ, "Pick A", ["A", "B", "C", "D"], "A", 1))])
  }

  /** A record's marks added to a defined total. */
  lemma SumRecordedSnoc(records: seq<AnswerRecord>, r: AnswerRecord, total: real, m: real)
    requires SumRecorded(records) == Some(total) && r.marks == Some(m)
    ensures SumRecorded(records + [r]) == Some(total + m)
  {
    assert (records + [r])[..|records|] == records;
  }

  /** The batch session of `OneMarkExam` answered correctly: 1 mark of 1. */
  lemma OneMarkBatch(now: int)
    ensures var eq := OneMarkExam().questions[0];
      BatchSession(OneMarkExam(), map["q1" := "A"], [Rejected], now, 0)
      == SessionState(Completed, 0, [BatchRecord(eq, "A", Rejected)], Some(1.0), Some(100.0), 1,
                      now, Some(now), Some(0))
  {
    var exam := OneMarkExam();
    var eq := exam.questions[0];
    var rec := BatchRecord(eq, "A", Rejected);
    assert rec.marks == Some(1.0) by {
      TrimNoop("A");
    }
    assert BatchRecords(exam.questions, map["q1" := "A"], [Rejected]) == [rec] by {
      assert LookupAnswer(map["q1" := "A"], "q1") == "A";
    }
    assert SumRecorded([rec]) == Some(1.0) by {
      SumRecordedSnoc([], rec, 0.0, 1.0);
      assert [] + [rec] == [rec];
    }
    assert Percent(Some(1.0), 1) == Some(100.0);
  }

  /** The reopened session then records 2 marks out of 1, 200 per cent. */
  lemma ReopenedScoresPastTotal(now: int, later: int)
    ensures var s := BatchSession(OneMarkExam(), map["q1" := "A"], [Rejected], now, 0);
      s.marksObtained == Some(1.0)
      && SubmitAsWritten(OneMarkExam(), s, "q1", "A", Rejected, later).Success?
      && SubmitAsWritten(OneMarkExam(), s, "q1", "A", Rejected, later).value.marksObtained == Some(2.0)
      && SubmitAsWritten(OneMarkExam(), s, "q1", "A", Rejected, later).value.percentage == Some(200.0)
  {
    var exam := OneMarkExam();
    var eq := exam.questions[0];
    var rec := BatchRecord(eq, "A", Rejected);
    OneMarkBatch(now);
    var s := SessionState(Completed, 0, [rec], Some(1.0), Some(100.0), 1, now, Some(now), Some(0));
    var again := SequentialRecord(eq, "A", Rejected);
    assert again.marks == Some(1.0);
    SumRecordedSnoc([rec], again, 1.0, 1.0);
    assert SubmitAsWritten(exam, s, "q1", "A", Rejected, later).value.answers == [rec] + [again];
  }

  /** An accepted submission pushes the record of the current question. */
  lemma SubmitAccepts(exam: Exam, s: SessionState, questionId: string, answer: string, call: Call, now: int)
    requires s.status == InProgress && s.index < |exam.questions| && exam.questions[s.index].id == questionId
    ensures Submit(exam, s, questionId, answer, call, now)
         == Success(Accept(exam, s, SequentialRecord(exam.questions[s.index], answer, call), now))
  {
  }

  // ---------------------------------------------------------------------------
  // The session document, updated in place

  class ExamSession {
    const exam: Exam
    var status: Status
    var index: nat
    var answers: seq<AnswerRecord>
    var marksObtained: Option<real>
    var percentage: Option<real>
    var totalMarks: nat
    var startedAt: int
    var completedAt: Option<int>
    var durationTaken: Option<int>

    function State(): SessionState
      reads this
    {
      SessionState(status, index, answers, marksObtained, percentage, totalMarks,
                   startedAt, completedAt, durationTaken)
    }

    /** `start-exam`: a fresh session in progress. */
    constructor Start(exam: Exam, now: int)
      ensures this.exam == exam && State() == Started(exam, now)
      ensures Valid(exam, State())
    {
      this.exam := exam;
      status := InProgress;
      index := 0;
      answers := [];
      marksObtained := Some(0.0);
      percentage := Some(0.0);
      totalMarks := exam.totalMarks;
      startedAt := now;
      completedAt := None;
      durationTaken := None;
    }

    /** `submit-exam`: grade every question, add the marks up and save the
      session as completed. */
    constructor SubmitAll(exam: Exam, given: map<string, string>, calls: seq<Call>, now: int, duration: int)
      requires |calls| == |exam.questions|
      ensures this.exam == exam && State() == BatchSession(exam, given, calls, now, duration)
    {
      var records := BatchRecords(exam.questions, given, calls);
      var graded, total := Aggregate(records);
      this.exam := exam;
      answers := graded;
      marksObtained := total;
      percentage := Percent(total, exam.totalMarks);
      totalMarks := exam.totalMarks;
      status := Completed;
      index := 0;
      startedAt := now - duration * 1000;
      completedAt := Some(now);
      durationTaken := Some(duration);
    }

    /** The final results written when the last question is answered. */
    method Complete(now: int)
      modifies this
      ensures State() == Finished(exam, old(State()), now)
    {
      var total := SumRecorded(answers);
      marksObtained := total;
      percentage := Percent(total, exam.totalMarks);
      status := Completed;
      completedAt := Some(now);
      durationTaken := Some((now - startedAt) / 1000);
    }

    /** `submit-answer`, with the status check: grade the current question,
      append its record, advance, and complete the session after the last
      question. A refused submission changes nothing. */
    method SubmitAnswer(questionId: string, answer: string, call: Call, now: int)
      returns (r: Result<Option<QuestionView>, SubmitError>)
      modifies this
      ensures match Submit(exam, old(State()), questionId, answer, call, now)
        case Success(t) => State() == t && r == Success(NextQuestion(exam, t))
        case Failure(e) => State() == old(State()) && r == Failure(e)
    {
      ghost var before := State();
      if status == Completed {
        return Failure(AlreadyCompleted);
      }
      if index >= |exam.questions| {
        return Failure(NoCurrentQuestion);
      }
      var current := exam.questions[index];
      if current.id != questionId {
        return Failure(InvalidQuestionId);
      }
      var rec := SequentialRecord(current, answer, call);
      SubmitAccepts(exam, before, questionId, answer, call, now);
      Push(rec);
      if index >= |exam.questions| {
        Complete(now);
        return Success(None);
      }
      return Success(Some(View(exam, index)));
    }

    /** `answers.push(record)` and the advance of the question index. */
    method Push(rec: AnswerRecord)
      modifies this
      ensures State() == Pushed(old(State()), rec)
    {
      answers := answers + [rec];
      index := index + 1;
    }
  }
}
