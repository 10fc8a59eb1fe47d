/** The content parser of the quiz-structuring endpoint: `parseMCQContent`,
    `parseShortContent` and the assembly of their results into a quiz. */
module ContentParser {
  import opened Wrappers
  import opened Text
  import opened LineShapes
  import opened ExamModel

  /** The key every parsed short question gets. */
  const ShortAnswerPlaceholder: string := "Expected answer based on course material"

  /** JavaScript truthiness of a string that may be `null`. */
  predicate Truthy(s: Option<string>) {
    s.Some? && s.value != ""
  }

  // ---------------------------------------------------------------------------
  // MCQ content

  /** The MCQ parser's loop variables: `currentQuestion`, `options`,
      `correctAnswer` and the `questions` pushed so far. */
  datatype McqState = McqState(current: Option<string>, options: seq<string>,
                               correct: Option<string>, questions: seq<Question>)

  const Initial: McqState := McqState(None, [], None, [])

  /** `options[correctIndex] || options[0]`. */
  function Resolve(options: seq<string>, slot: nat): (r: string)
    requires |options| > 0
    ensures r in options
    ensures slot < |options| && options[slot] != "" ==> r == options[slot]
    ensures r != options[0] ==> slot < |options| && r == options[slot]
    ensures !(slot < |options| && options[slot] != "") ==> r == options[0]
  {
    if slot < |options| && options[slot] != "" then options[slot] else options[0]
  }

  /** The question that finalizing the pending one pushes. */
  function Pending(st: McqState, marks: nat): Question
    requires st.current.Some? && |st.options| >= 4
  {
    Question(MCQ, st.current.value, st.options[..4],
             if Truthy(st.correct) then st.correct.value else st.options[0], marks)
  }

  /** The questions after finalizing the pending question: it is pushed only
      when it exists and has at least four options, otherwise it is dropped. */
  function Finalize(st: McqState, marks: nat): seq<Question>
  {
    if Truthy(st.current) && |st.options| >= 4 then st.questions + [Pending(st, marks)]
    else st.questions
  }

  /** Finalizing keeps the questions pushed so far and adds at most one: the
      pending question, exactly when it is there and has four options, with
      its first four options, its text and the default marks. */
  lemma FinalizeEffect(st: McqState, marks: nat)
    ensures var r := Finalize(st, marks);
      st.questions <= r && |r| <= |st.questions| + 1
      && (|r| == |st.questions| + 1 <==> Truthy(st.current) && |st.options| >= 4)
      && (|r| > |st.questions| ==>
            r[|st.questions|].text == st.current.value && r[|st.questions|].options == st.options[..4]
            && r[|st.questions|].marks == marks && r[|st.questions|].kind == MCQ
            && r[|st.questions|].answer == (if Truthy(st.correct) then st.correct.value else st.options[0]))
  {
  }

  /** The shape of one line, trimmed: the first check that matches wins.
      Blank lines are skipped, then come question lines, option lines (their
      capture is trimmed again) and answer markers, which carry the option
      slot their letter names; anything else is ignored. */
  datatype LineShape = Blank | QuestionLine(text: string) | OptionLine(option: string)
                     | MarkerLine(slot: nat) | OtherLine

  function Classify(raw: string): (r: LineShape)
    ensures r.MarkerLine? ==> r.slot < 4
    ensures r.QuestionLine? ==> r.text != ""
  {
    ClassifyLine(Trim(raw))
  }

  /** The shape of a line that is already trimmed. */
  function ClassifyLine(line: string): (r: LineShape)
    ensures r.MarkerLine? ==> r.slot < 4
    ensures r.QuestionLine? ==> r.text != ""
    ensures r.Blank? <==> line == ""
  {
    if line == "" then Blank
    else match QuestionText(line)
      case Some(text) => QuestionLine(text)
      case None =>
        match OptionText(line)
        case Some(o) => OptionLine(Trim(o))
        case None =>
          match MarkerLetter(line)
          case Some(letter) => MarkerLine(ChoiceIndex(letter))
          case None => OtherLine
  }

  /** One iteration of the loop over the content's lines. */
  function Step(st: McqState, raw: string, marks: nat): McqState
  {
    Apply(st, Classify(raw), marks)
  }

  /** The effect of a line of the given shape. A marker sets the answer only
      once some option has been collected, and a later marker overrides an
      earlier one. */
  function Apply(st: McqState, shape: LineShape, marks: nat): McqState
  {
    match shape
    case QuestionLine(text) => McqState(Some(text), [], None, Finalize(st, marks))
    case OptionLine(o) => st.(options := st.options + [o])
    case MarkerLine(slot) =>
      if |st.options| > 0 then st.(correct := Some(Resolve(st.options, slot))) else st
    case _ => st
  }

  /** What each shape does: only a question line finalizes the pending
      question and starts a new one; an option line appends to the options;
      a marker after some option sets the answer; anything else changes nothing. */
  lemma ApplyEffect(st: McqState, shape: LineShape, marks: nat)
    ensures var r := Apply(st, shape, marks);
      st.questions <= r.questions && |r.questions| <= |st.questions| + 1
      && (shape.QuestionLine? ==> r == McqState(Some(shape.text), [], None, Finalize(st, marks)))
      && (!shape.QuestionLine? ==> r.questions == st.questions && r.current == st.current)
      && (shape.OptionLine? ==> r.options == st.options + [shape.option] && r.correct == st.correct)
      && (shape.MarkerLine? ==> r.options == st.options)
      && (shape.MarkerLine? && st.options != [] ==> r.correct == Some(Resolve(st.options, shape.slot)))
      && (shape.Blank? || shape.OtherLine? || (shape.MarkerLine? && st.options == []) ==> r == st)
  {
  }

  function Fold(st: McqState, lines: seq<string>, marks: nat): McqState
    decreases |lines|
  {
    if lines == [] then st else Fold(Step(st, lines[0], marks), lines[1..], marks)
  }

  /** What `parseMCQContent(content, marks)` returns. Every MCQ it emits has
      exactly four options, its answer is one of them, it carries the default
      marks and a non-empty text. */
  function McqQuestions(content: string, marks: nat): (r: seq<Question>)
    ensures forall q | q in r :: WellFormedMcq(q, marks)
  {
    var st := Fold(Initial, Split(content), marks);
    FoldOk(Initial, Split(content), marks);
    FinalizeOk(st, marks);
    Finalize(st, marks)
  }

  lemma {:induction false} FoldSnoc(st: McqState, lines: seq<string>, line: string, marks: nat)
    ensures Fold(st, lines + [line], marks) == Step(Fold(st, lines, marks), line, marks)
    decreases |lines|
  {
    if lines == [] {
      assert [line][1..] == [];
    } else {
      assert (lines + [line])[1..] == lines[1..] + [line];
      FoldSnoc(Step(st, lines[0], marks), lines[1..], line, marks);
    }
  }

  lemma {:induction false} FoldAppend(st: McqState, a: seq<string>, b: seq<string>, marks: nat)
    ensures Fold(st, a + b, marks) == Fold(Fold(st, a, marks), b, marks)
    decreases |a|
  {
    if a == [] {
      assert a + b == b;
    } else {
      assert (a + b)[1..] == a[1..] + b;
      FoldAppend(Step(st, a[0], marks), a[1..], b, marks);
    }
  }

  /** The shapes of `lines`, in order. */
  function Shapes(lines: seq<string>): (r: seq<LineShape>)
    ensures |r| == |lines| && forall i | 0 <= i < |lines| :: r[i] == Classify(lines[i])
  {
    seq(|lines|, i requires 0 <= i < |lines| => Classify(lines[i]))
  }

  /** The loop run over already classified lines. */
  function Run(st: McqState, shapes: seq<LineShape>, marks: nat): McqState
    decreases |shapes|
  {
    if shapes == [] then st else Run(Apply(st, shapes[0], marks), shapes[1..], marks)
  }

  lemma {:induction false} FoldIsRun(st: McqState, lines: seq<string>, marks: nat)
    ensures Fold(st, lines, marks) == Run(st, Shapes(lines), marks)
    decreases |lines|
  {
    if lines != [] {
      FoldIsRun(Step(st, lines[0], marks), lines[1..], marks);
      assert Shapes(lines)[1..] == Shapes(lines[1..]);
    }
  }

  lemma {:induction false} RunAppend(st: McqState, a: seq<LineShape>, b: seq<LineShape>, marks: nat)
    ensures Run(st, a + b, marks) == Run(Run(st, a, marks), b, marks)
    decreases |a|
  {
    if a == [] {
      assert a + b == b;
    } else {
      assert (a + b)[1..] == a[1..] + b;
      RunAppend(Apply(st, a[0], marks), a[1..], b, marks);
    }
  }

  lemma ShapesAppend(a: seq<string>, b: seq<string>)
    ensures Shapes(a + b) == Shapes(a) + Shapes(b)
  {
    assert forall i | 0 <= i < |a + b| :: (a + b)[i] == if i < |a| then a[i] else b[i - |a|];
  }

  /** The shapes of a run of option lines. */
  function OptionShapes(options: seq<string>): (r: seq<LineShape>)
    ensures |r| == |options| && forall i | 0 <= i < |options| :: r[i] == OptionLine(options[i])
  {
    seq(|options|, i requires 0 <= i < |options| => OptionLine(options[i]))
  }

  /** Option lines append their options, in order, to the pending question. */
  lemma {:induction false} RunOptions(st: McqState, options: seq<string>, rest: seq<LineShape>, marks: nat)
    ensures Run(st, OptionShapes(options) + rest, marks) == Run(st.(options := st.options + options), rest, marks)
    decreases |options|
  {
    if options == [] {
      assert OptionShapes(options) + rest == rest;
      assert st.options + options == st.options;
    } else {
      var all := OptionShapes(options) + rest;
      assert all[0] == OptionLine(options[0]);
      assert all[1..] == OptionShapes(options[1..]) + rest;
      RunOptions(st.(options := st.options + [options[0]]), options[1..], rest, marks);
      assert st.options + [options[0]] + options[1..] == st.options + options;
    }
  }

  /** A question line followed by option lines and nothing else emits, once
      finalized, the earlier questions and then the block's question with
      its first four options and the first option as its answer; a block
      with fewer than four options is dropped, never padded. */
  lemma BlockEmitsFirstFour(st: McqState, t: string, opts: seq<string>, marks: nat)
    requires t != ""
    ensures Finalize(Run(st, [QuestionLine(t)] + OptionShapes(opts), marks), marks)
         == Finalize(st, marks) + (if |opts| >= 4 then [Question(MCQ, t, opts[..4], opts[0], marks)] else [])
  {
    var s1 := McqState(Some(t), [], None, Finalize(st, marks));
    assert ([QuestionLine(t)] + OptionShapes(opts))[1..] == OptionShapes(opts) + [];
    RunOptions(s1, opts, [], marks);
    assert s1.options + opts == opts;
  }

  /** A question line, its options and a marker: the question is pending with
      the option the marker names. */
  lemma RunQuestionOptionsMarker(st: McqState, text: string, options: seq<string>, slot: nat, marks: nat)
    requires options != []
    ensures Run(st, [QuestionLine(text)] + OptionShapes(options) + [MarkerLine(slot)], marks)
         == McqState(Some(text), options, Some(Resolve(options, slot)), Finalize(st, marks))
  {
    var s1 := McqState(Some(text), [], None, Finalize(st, marks));
    var head := [QuestionLine(text)];
    var tail := OptionShapes(options) + [MarkerLine(slot)];
    assert head + OptionShapes(options) + [MarkerLine(slot)] == head + tail;
    RunAppend(st, head, tail, marks);
    assert Run(st, head, marks) == s1;
    RunOptions(s1, options, [MarkerLine(slot)], marks);
    assert s1.options + options == options;
    RunMarker(s1.(options := options), slot, marks);
  }

  lemma RunMarker(st: McqState, slot: nat, marks: nat)
    requires st.options != []
    ensures Run(st, [MarkerLine(slot)], marks) == st.(correct := Some(Resolve(st.options, slot)))
  {
  }

  /** The same block closed by an answer marker: the answer is the option the
      marker names, or the first option when that slot is missing or empty. */
  lemma BlockWithMarkerEmitsFirstFour(st: McqState, t: string, opts: seq<string>, slot: nat, marks: nat)
    requires t != "" && opts != []
    ensures Finalize(Run(st, [QuestionLine(t)] + OptionShapes(opts) + [MarkerLine(slot)], marks), marks)
         == Finalize(st, marks)
            + (if |opts| >= 4 then [Question(MCQ, t, opts[..4], Resolve(opts, slot), marks)] else [])
  {
    RunQuestionOptionsMarker(st, t, opts, slot, marks);
  }

  lemma TakeOneMore(lines: seq<string>, i: nat)
    requires i < |lines|
    ensures lines[..i + 1] == lines[..i] + [lines[i]]
  {
  }

  /** `parseMCQContent`: the loop over the lines mutates the pending question,
      its options and its answer, and pushes finished questions. */
  method ParseMcqContent(content: string, defaultMarks: nat) returns (questions: seq<Question>)
    ensures questions == McqQuestions(content, defaultMarks)
  {
    questions := [];
    var lines := Split(content);
    var currentQuestion: Option<string> := None;
    var options: seq<string> := [];
    var correctAnswer: Option<string> := None;

    for i := 0 to |lines|
      invariant McqState(currentQuestion, options, correctAnswer, questions)
             == Fold(Initial, lines[..i], defaultMarks)
    {
      FoldSnoc(Initial, lines[..i], lines[i], defaultMarks);
      TakeOneMore(lines, i);
      var line := Trim(lines[i]);
      currentQuestion, options, correctAnswer, questions :=
        ParseLine(line, currentQuestion, options, correctAnswer, questions, defaultMarks);
    }
    assert lines[..|lines|] == lines;

    if Truthy(currentQuestion) && |options| >= 4 {
      questions := questions + [Question(MCQ, currentQuestion.value, options[..4],
        if Truthy(correctAnswer) then correctAnswer.value else options[0], defaultMarks)];
    }
  }

  /** The body of the loop of `parseMCQContent`: the effect of one trimmed
      line on the loop variables. */
  method ParseLine(line: string, current: Option<string>, opts: seq<string>, correct: Option<string>,
                   done: seq<Question>, defaultMarks: nat)
    returns (currentQuestion: Option<string>, options: seq<string>, correctAnswer: Option<string>,
             questions: seq<Question>)
    ensures McqState(currentQuestion, options, correctAnswer, questions)
         == Apply(McqState(current, opts, correct, done), ClassifyLine(line), defaultMarks)
  {
    currentQuestion, options, correctAnswer, questions := current, opts, correct, done;
    ghost var before := McqState(current, opts, correct, done);
    ghost var shape := ClassifyLine(line);
    if line != "" {
      var questionMatch := QuestionText(line);
      if questionMatch.Some? {
        assert shape == QuestionLine(questionMatch.value);
        if Truthy(currentQuestion) && |options| >= 4 {
          questions := questions + [Question(MCQ, currentQuestion.value, options[..4],
            if Truthy(correctAnswer) then correctAnswer.value else options[0], defaultMarks)];
        }
        currentQuestion := questionMatch;
        options := [];
        correctAnswer := None;
      } else {
        var optionMatch := OptionText(line);
        if optionMatch.Some? {
          assert shape == OptionLine(Trim(optionMatch.value));
          options := options + [Trim(optionMatch.value)];
        } else {
          var correctMatch := MarkerLetter(line);
          if correctMatch.Some? {
            assert shape == MarkerLine(ChoiceIndex(correctMatch.value));
            if |options| > 0 {
              var correctIndex := ChoiceIndex(correctMatch.value);
              correctAnswer := Some(if correctIndex < |options| && options[correctIndex] != ""
                                    then options[correctIndex] else options[0]);
              assert correctAnswer == Some(Resolve(before.options, correctIndex));
            }
          } else {
            assert shape == OtherLine;
          }
        }
      }
    } else {
      assert shape == Blank;
    }
  }

  /** What every emitted MCQ looks like. */
  predicate WellFormedMcq(q: Question, marks: nat) {
    q.kind == MCQ && q.text != "" && |q.options| == 4 && q.answer in q.options && q.marks == marks
  }

  /** What the loop keeps true: emitted questions are well formed and a
      resolved answer is one of the first four collected options. */
  predicate StateOk(st: McqState, marks: nat) {
    (forall q | q in st.questions :: WellFormedMcq(q, marks))
    && (st.current.Some? ==> st.current.value != "")
    && (st.correct.Some? ==> exists i | 0 <= i < 4 && i < |st.options| :: st.options[i] == st.correct.value)
  }

  lemma FinalizeOk(st: McqState, marks: nat)
    requires StateOk(st, marks)
    ensures forall q | q in Finalize(st, marks) :: WellFormedMcq(q, marks)
  {
    if Truthy(st.current) && |st.options| >= 4 {
      var q := Pending(st, marks);
      if Truthy(st.correct) {
        var i :| 0 <= i < 4 && i < |st.options| && st.options[i] == st.correct.value;
        assert q.options[i] == q.answer;
      } else {
        assert q.options[0] == q.answer;
      }
    }
  }

  lemma ApplyOk(st: McqState, shape: LineShape, marks: nat)
    requires StateOk(st, marks)
    requires shape.QuestionLine? ==> shape.text != ""
    requires shape.MarkerLine? ==> shape.slot < 4
    ensures StateOk(Apply(st, shape, marks), marks)
  {
    match shape
    case QuestionLine(text) =>
      FinalizeOk(st, marks);
    case OptionLine(o) =>
      if st.correct.Some? {
        var i :| 0 <= i < 4 && i < |st.options| && st.options[i] == st.correct.value;
        assert (st.options + [o])[i] == st.correct.value;
      }
    case MarkerLine(slot) =>
      if |st.options| > 0 {
        if slot < |st.options| && st.options[slot] != "" {
          assert st.options[slot] == Resolve(st.options, slot);
        } else {
          assert st.options[0] == Resolve(st.options, slot);
        }
      }
    case _ =>
  }

  lemma StepOk(st: McqState, raw: string, marks: nat)
    requires StateOk(st, marks)
    ensures StateOk(Step(st, raw, marks), marks)
  {
    ApplyOk(st, Classify(raw), marks);
  }

  lemma {:induction false} FoldOk(st: McqState, lines: seq<string>, marks: nat)
    requires StateOk(st, marks)
    ensures StateOk(Fold(st, lines, marks), marks)
    decreases |lines|
  {
    if lines != [] {
      StepOk(st, lines[0], marks);
      FoldOk(Step(st, lines[0], marks), lines[1..], marks);
    }
  }

  predicate IsQuestionLine(raw: string) {
    Trim(raw) != "" && QuestionText(Trim(raw)).Some?
  }

  function QuestionLineCount(lines: seq<string>): nat
  {
    if lines == [] then 0 else (if IsQuestionLine(lines[0]) then 1 else 0) + QuestionLineCount(lines[1..])
  }

  lemma {:induction false} FoldCount(st: McqState, lines: seq<string>, marks: nat)
    ensures |Finalize(Fold(st, lines, marks), marks)|
         <= |st.questions| + (if st.current.Some? then 1 else 0) + QuestionLineCount(lines)
    decreases |lines|
  {
    if lines != [] {
      FoldCount(Step(st, lines[0], marks), lines[1..], marks);
    }
  }

  /** A question is emitted only for a question line: no more MCQs than question lines. */
  lemma McqCountAtMostQuestionLines(content: string, marks: nat)
    ensures |McqQuestions(content, marks)| <= QuestionLineCount(Split(content))
  {
    FoldCount(Initial, Split(content), marks);
  }

  // ---------------------------------------------------------------------------
  // Short-answer content

  /** The question one line of short-answer content gives, if any. */
  function ShortQuestion(raw: string, marks: nat): (r: Option<Question>)
    ensures r.None? <==> StripNumber(Trim(raw)) == ""
    ensures r.Some? ==> r.value == Question(Short, StripNumber(Trim(raw)), [], ShortAnswerPlaceholder, marks)
  {
    var line := Trim(raw);
    if line == "" then None
    else
      var questionText := StripNumber(line);
      if questionText != "" then Some(Question(Short, questionText, [], ShortAnswerPlaceholder, marks))
      else None
  }

  /** What `parseShortContent` returns for the given lines. */
  function ShortQuestions(lines: seq<string>, marks: nat): (r: seq<Question>)
    ensures |r| <= |lines|
    ensures forall q | q in r :: q.kind == Short && q.text != "" && q.options == []
                                 && q.answer == ShortAnswerPlaceholder && q.marks == marks
  {
    if lines == [] then []
    else
      var prefix := ShortQuestions(lines[..|lines| - 1], marks);
      match ShortQuestion(lines[|lines| - 1], marks)
      case None => prefix
      case Some(q) => prefix + [q]
  }

  /** A non-blank line without a `N.` prefix becomes a question with the
      whole trimmed line as its text. */
  lemma UnnumberedLineKept(raw: string, marks: nat)
    requires Trim(raw) != "" && !IsDigit(Trim(raw)[0])
    ensures ShortQuestion(raw, marks) == Some(Question(Short, Trim(raw), [], ShortAnswerPlaceholder, marks))
  {
  }

  /** `parseShortContent`: one pushed question per line that keeps some text
      once its number is removed. */
  method ParseShortContent(content: string, defaultMarks: nat) returns (questions: seq<Question>)
    ensures questions == ShortQuestions(Split(content), defaultMarks)
  {
    questions := [];
    var lines := Split(content);
    for i := 0 to |lines|
      invariant questions == ShortQuestions(lines[..i], defaultMarks)
    {
      assert lines[..i + 1][..i] == lines[..i];
      var line := Trim(lines[i]);
      if line != "" {
        var questionText := StripNumber(line);
        if questionText != "" {
          questions := questions + [Question(Short, questionText, [], ShortAnswerPlaceholder, defaultMarks)];
        }
      }
    }
    assert lines[..|lines|] == lines;
  }

  // ---------------------------------------------------------------------------
  // Quiz assembly

  /** The questions of a structured quiz: the MCQ block's, then the short block's.
      A block that is empty or blank is not parsed. */
  function QuizQuestions(mcqContent: string, shortContent: string, mcqMarks: nat, shortMarks: nat)
    : (r: seq<Question>)
    ensures McqBeforeShort(r)
    ensures forall q | q in r :: q.marks == if q.kind == MCQ then mcqMarks else shortMarks
    ensures Trim(mcqContent) == "" ==> forall q | q in r :: q.kind == Short
    ensures Trim(shortContent) == "" ==> forall q | q in r :: q.kind == MCQ
  {
    var mcq := if Trim(mcqContent) != "" then McqQuestions(mcqContent, mcqMarks) else [];
    var short := if Trim(shortContent) != "" then ShortQuestions(Split(shortContent), shortMarks) else [];
    KindsAppend(mcq, short);
    mcq + short
  }

  /** The exam record the endpoint builds before saving it. */
  datatype QuizDraft = QuizDraft(title: string, examType: ExamType, duration: int,
                                 totalMarks: nat, questions: seq<Question>)

  /** The `/api/structure-quiz` handler, from its parsed request body. */
  method StructureQuiz(examTitle: string, examType: ExamType, duration: int,
                       mcqContent: string, shortContent: string, mcqMarks: nat, shortMarks: nat)
    returns (draft: QuizDraft)
    ensures draft.questions == QuizQuestions(mcqContent, shortContent, mcqMarks, shortMarks)
    ensures draft.totalMarks == SumMarks(draft.questions)
    ensures draft.title == examTitle && draft.examType == examType && draft.duration == duration
  {
    var mcqQuestions: seq<Question> := [];
    if Trim(mcqContent) != "" {
      mcqQuestions := ParseMcqContent(mcqContent, mcqMarks);
    }
    var shortQuestions: seq<Question> := [];
    if Trim(shortContent) != "" {
      shortQuestions := ParseShortContent(shortContent, shortMarks);
    }
    var questions := mcqQuestions + shortQuestions;
    draft := QuizDraft(examTitle, examType, duration, SumMarks(questions), questions);
  }

  /** No short question comes before an MCQ. */
  predicate McqBeforeShort(qs: seq<Question>) {
    forall i, j | 0 <= i < j < |qs| :: qs[j].kind == MCQ ==> qs[i].kind == MCQ
  }

  lemma {:induction false} SumMarksUniform(qs: seq<Question>, marks: nat)
    requires forall q | q in qs :: q.marks == marks
    ensures SumMarks(qs) == marks * |qs|
    decreases |qs|
  {
    if qs != [] {
      var init := qs[..|qs| - 1];
      assert forall q | q in init :: q in qs;
      SumMarksUniform(init, marks);
      assert qs[|qs| - 1] in qs;
      assert SumMarks(qs) == SumMarks(init) + marks;
      MulSucc(marks, |init|);
    }
  }

  lemma MulSucc(a: nat, n: nat)
    ensures a * n + a == a * (n + 1)
  {
  }

  lemma KindsAppend(mcq: seq<Question>, short: seq<Question>)
    requires forall q | q in mcq :: q.kind == MCQ
    requires forall q | q in short :: q.kind == Short
    ensures McqBeforeShort(mcq + short)
  {
    var qs := mcq + short;
    forall i, j | 0 <= i < j < |qs| && qs[j].kind == MCQ ensures qs[i].kind == MCQ {
      assert j < |mcq|;
      assert qs[i] == mcq[i] && qs[i] in mcq;
    }
  }

  /** The total of a structured quiz is the default marks times the number
      of questions of each kind. */
  lemma QuizLayout(mcqContent: string, shortContent: string, mcqMarks: nat, shortMarks: nat)
    ensures var mcq := if Trim(mcqContent) != "" then McqQuestions(mcqContent, mcqMarks) else [];
            var short := if Trim(shortContent) != "" then ShortQuestions(Split(shortContent), shortMarks) else [];
            SumMarks(QuizQuestions(mcqContent, shortContent, mcqMarks, shortMarks))
              == mcqMarks * |mcq| + shortMarks * |short|
  {
    var mcq := if Trim(mcqContent) != "" then McqQuestions(mcqContent, mcqMarks) else [];
    var short := if Trim(shortContent) != "" then ShortQuestions(Split(shortContent), shortMarks) else [];
    SumMarksAppend(mcq, short);
    SumMarksUniform(mcq, mcqMarks);
    SumMarksUniform(short, shortMarks);
  }
}
