/** Quiz content written in the layout the teacher's page offers as its
    example: numbered question lines, the options `A.` to `D.` and a
    `(Correct: X)` marker, blocks separated by a blank line; short-answer
    content is one numbered question per line. Rendering is the inverse of
    the content parsers on questions whose texts survive trimming. */
module QuizText {
  import opened Wrappers
  import opened Text
  import opened LineShapes
  import opened ExamModel
  import opened ContentParser

  predicate SingleLine(s: string) {
    forall k | 0 <= k < |s| :: !IsLineTerminator(s[k])
  }

  /** Text a line can carry through trimming and the line patterns unchanged. */
  predicate Clean(s: string) {
    s != [] && !IsWhitespace(s[0]) && !IsWhitespace(s[|s| - 1]) && SingleLine(s)
  }

  function Letter(i: nat): (c: char)
    requires i < 4
    ensures IsOptionLetter(c) && ChoiceIndex(c) == i
  {
    "ABCD"[i]
  }

  /** The first position of `x` in `options`. */
  function IndexOf(options: seq<string>, x: string): (i: nat)
    requires x in options
    ensures i < |options| && options[i] == x
    ensures forall j | 0 <= j < i :: options[j] != x
  {
    if options[0] == x then 0 else 1 + IndexOf(options[1..], x)
  }

  /** Four options and an answer among them: what a block can display. */
  predicate HasKey(q: Question) {
    |q.options| == 4 && q.answer in q.options
  }

  /** An MCQ whose rendering parses back to itself. */
  predicate RenderableMcq(q: Question, marks: nat) {
    q.kind == MCQ && q.marks == marks && HasKey(q) && Clean(q.text)
    && forall i | 0 <= i < 4 :: Clean(q.options[i])
  }

  predicate AllRenderable(qs: seq<Question>, marks: nat) {
    forall i {:trigger RenderableMcq(qs[i], marks)} | 0 <= i < |qs| :: RenderableMcq(qs[i], marks)
  }

  function QuestionRow(n: nat, text: string): string {
    NatToString(n) + ". " + text
  }

  function OptionRow(i: nat, option: string): string
    requires i < 4
  {
    [Letter(i)] + ". " + option
  }

  function MarkerRow(letter: char): string {
    "(Correct: " + [letter] + ")"
  }

  /** The option shown in slot `i` (an empty one where the question has fewer). */
  function Shown(q: Question, i: nat): string {
    if i < |q.options| then q.options[i] else ""
  }

  /** The first slot holding the answer (slot 0 if none of the four does). */
  function KeySlot(q: Question): (i: nat)
    ensures i < 4
  {
    if q.answer in q.options && IndexOf(q.options, q.answer) < 4 then IndexOf(q.options, q.answer) else 0
  }

  /** The four option rows of a block. */
  function OptionRows(q: Question): (r: seq<string>)
    ensures |r| == 4 && forall i | 0 <= i < 4 :: r[i] == OptionRow(i, Shown(q, i))
  {
    seq(4, i requires 0 <= i < 4 => OptionRow(i, Shown(q, i)))
  }

  /** The six lines of question number `n`. */
  function Block(n: nat, q: Question): (r: seq<string>)
    ensures |r| == 6
  {
    [QuestionRow(n, q.text)] + OptionRows(q) + [MarkerRow(Letter(KeySlot(q)))]
  }

  /** The blocks of `qs`, numbered from `n`, with a blank line between blocks. */
  function McqLines(qs: seq<Question>, n: nat): (r: seq<string>)
    ensures qs != [] ==> |r| >= 6
    decreases |qs|
  {
    if qs == [] then []
    else if |qs| == 1 then Block(n, qs[0])
    else Block(n, qs[0]) + [""] + McqLines(qs[1..], n + 1)
  }

  function RenderMcq(qs: seq<Question>): string {
    if qs == [] then "" else Join(McqLines(qs, 1))
  }

  // ---------------------------------------------------------------------------
  // How the rendered lines classify

  lemma SingleLineAppend(a: string, b: string)
    requires SingleLine(a) && SingleLine(b)
    ensures SingleLine(a + b)
  {
    forall k | 0 <= k < |a + b| ensures !IsLineTerminator((a + b)[k]) {
      if k >= |a| {
        assert (a + b)[k] == b[k - |a|];
      }
    }
  }

  lemma NoNewline(s: string)
    requires SingleLine(s)
    ensures '\n' !in s
  {
    assert forall k | 0 <= k < |s| :: s[k] != '\n';
  }

  lemma TakeLineWhole(t: string)
    requires SingleLine(t)
    ensures TakeLine(t) == t
  {
    assert LineLength(t) == |t|;
  }

  /** A space followed by clean text: `\s*(.+)` captures the text. */
  lemma SpaceThenClean(t: string)
    requires Clean(t)
    ensures LeadingWhitespace(" " + t) == 1
    ensures WhitespaceThenText(" " + t) == Some(t)
  {
    var s := " " + t;
    var w := LeadingWhitespace(s);
    assert s[1] == t[0];
    assert IsWhitespace(s[0]) && !IsWhitespace(s[1]);
    assert w == 1;
    assert s[1..] == t;
    TakeLineWhole(t);
  }

  lemma QuestionRowNumber(n: nat, t: string)
    ensures NumberDotLength(QuestionRow(n, t)) == |NatToString(n)| + 1
    ensures QuestionRow(n, t)[|NatToString(n)| + 1..] == " " + t
  {
    var d := NatToString(n);
    var line := QuestionRow(n, t);
    assert forall k | 0 <= k < |d| :: line[k] == d[k];
    assert line[|d|] == '.';
    assert forall k | 0 <= k < |d| :: IsDigit(line[k]);
    assert LeadingDigits(line) == |d|;
    assert line[|d| + 1..] == " " + t;
  }

  lemma QuestionRowTrim(n: nat, t: string)
    requires Clean(t)
    ensures Trim(QuestionRow(n, t)) == QuestionRow(n, t)
  {
    var d := NatToString(n);
    var line := QuestionRow(n, t);
    assert line[0] == d[0] && IsDigit(d[0]);
    assert line[|line| - 1] == t[|t| - 1];
    TrimNoop(line);
  }

  lemma QuestionRowSingle(n: nat, t: string)
    requires Clean(t)
    ensures SingleLine(QuestionRow(n, t))
  {
    var d := NatToString(n);
    assert SingleLine(d) by {
      forall k | 0 <= k < |d| ensures !IsLineTerminator(d[k]) {
        assert IsDigit(d[k]);
      }
    }
    SingleLineAppend(d, ". ");
    SingleLineAppend(d + ". ", t);
  }

  lemma QuestionRowShape(n: nat, t: string)
    requires Clean(t)
    ensures var line := QuestionRow(n, t);
      NumberDotLength(line) == |NatToString(n)| + 1 && line[|NatToString(n)| + 1..] == " " + t
      && Trim(line) == line && SingleLine(line)
  {
    QuestionRowNumber(n, t);
    QuestionRowTrim(n, t);
    QuestionRowSingle(n, t);
  }

  lemma ClassifyQuestionRow(n: nat, t: string)
    requires Clean(t)
    ensures Classify(QuestionRow(n, t)) == QuestionLine(t)
  {
    var line := QuestionRow(n, t);
    QuestionRowShape(n, t);
    SpaceThenClean(t);
    assert QuestionText(line) == Some(t);
  }

  lemma OptionRowShape(i: nat, o: string)
    requires i < 4 && Clean(o)
    ensures var line := OptionRow(i, o);
      Trim(line) == line && SingleLine(line) && line[2..] == " " + o
      && NumberDotLength(line) == 0
  {
    var line := OptionRow(i, o);
    assert line[0] == Letter(i) && line[1] == '.';
    assert line[2..] == " " + o;
    assert line[|line| - 1] == o[|o| - 1];
    TrimNoop(line);
    SingleLineAppend([Letter(i)] + ". ", o);
  }

  lemma ClassifyOptionRow(i: nat, o: string)
    requires i < 4 && Clean(o)
    ensures Classify(OptionRow(i, o)) == OptionLine(o)
  {
    var line := OptionRow(i, o);
    OptionRowShape(i, o);
    SpaceThenClean(o);
    assert OptionText(line) == Some(o);
    TrimNoop(o);
  }

  /** The marker row matches the marker pattern at its second character. */
  lemma MarkerRowMatch(letter: char)
    requires IsOptionLetter(letter)
    ensures MarkerAt(MarkerRow(letter), 1) == Some(letter)
  {
    var line := MarkerRow(letter);
    var t := line[1 + |CorrectWord|..];
    assert t == " " + [letter] + ")";
    assert IsWhitespace(t[0]) && !IsWhitespace(t[1]);
    assert LeadingWhitespace(t) == 1;
    assert forall i | 0 <= i < |CorrectWord| :: AsciiLower(line[1 + i]) == CorrectWord[i];
  }

  lemma MarkerRowLetter(letter: char)
    requires IsOptionLetter(letter)
    ensures MarkerLetter(MarkerRow(letter)) == Some(letter)
  {
    var line := MarkerRow(letter);
    assert AsciiLower(line[0]) != CorrectWord[0];
    assert MarkerAt(line, 0).None?;
    MarkerRowMatch(letter);
    assert FindMarker(line, 1) == Some(letter);
  }

  lemma ClassifyMarkerRow(letter: char)
    requires IsOptionLetter(letter)
    ensures Classify(MarkerRow(letter)) == MarkerLine(ChoiceIndex(letter))
  {
    var line := MarkerRow(letter);
    assert line[0] == '(' && line[|line| - 1] == ')';
    TrimNoop(line);
    assert NumberDotLength(line) == 0;
    MarkerRowLetter(letter);
  }

  // ---------------------------------------------------------------------------
  // Parsing the rendered lines

  /** The shapes of a block's six lines. */
  function BlockShapes(q: Question): seq<LineShape> {
    [QuestionLine(q.text)] + OptionShapes(q.options) + [MarkerLine(KeySlot(q))]
  }

  function McqShapes(qs: seq<Question>): seq<LineShape>
    decreases |qs|
  {
    if qs == [] then []
    else if |qs| == 1 then BlockShapes(qs[0])
    else BlockShapes(qs[0]) + [Blank] + McqShapes(qs[1..])
  }

  lemma ShapesOfOne(line: string, shape: LineShape)
    requires Classify(line) == shape
    ensures Shapes([line]) == [shape]
  {
  }

  lemma ShapesOfOptionRows(q: Question, marks: nat)
    requires RenderableMcq(q, marks)
    ensures Shapes(OptionRows(q)) == OptionShapes(q.options)
  {
    var rows := OptionRows(q);
    forall i | 0 <= i < 4 ensures Classify(rows[i]) == OptionLine(q.options[i]) {
      ClassifyOptionRow(i, q.options[i]);
    }
    assert forall i | 0 <= i < 4 :: Shapes(rows)[i] == OptionShapes(q.options)[i];
  }

  lemma ShapesOfBlock(n: nat, q: Question, marks: nat)
    requires RenderableMcq(q, marks)
    ensures Shapes(Block(n, q)) == BlockShapes(q)
  {
    var top := [QuestionRow(n, q.text)];
    var bottom := [MarkerRow(Letter(KeySlot(q)))];
    assert Shapes(top) == [QuestionLine(q.text)] by {
      ClassifyQuestionRow(n, q.text);
      ShapesOfOne(top[0], QuestionLine(q.text));
    }
    assert Shapes(bottom) == [MarkerLine(KeySlot(q))] by {
      ClassifyMarkerRow(Letter(KeySlot(q)));
      ShapesOfOne(bottom[0], MarkerLine(KeySlot(q)));
    }
    ShapesOfOptionRows(q, marks);
    ShapesAppend(top, OptionRows(q));
    ShapesAppend(top + OptionRows(q), bottom);
  }

  lemma {:induction false} ShapesOfMcqLines(qs: seq<Question>, n: nat, marks: nat)
    requires AllRenderable(qs, marks)
    ensures Shapes(McqLines(qs, n)) == McqShapes(qs)
    decreases |qs|
  {
    if qs != [] {
      assert RenderableMcq(qs[0], marks);
      ShapesOfBlock(n, qs[0], marks);
      if |qs| > 1 {
        ShapesOfMcqLines(qs[1..], n + 1, marks);
        ShapesAppend(Block(n, qs[0]), [""]);
        ShapesAppend(Block(n, qs[0]) + [""], McqLines(qs[1..], n + 1));
        assert Shapes([""]) == [Blank];
      }
    }
  }

  /** After a block the block's question is pending with its own answer. */
  lemma RunBlock(st: McqState, q: Question, marks: nat)
    requires RenderableMcq(q, marks)
    ensures Run(st, BlockShapes(q), marks)
         == McqState(Some(q.text), q.options, Some(q.answer), Finalize(st, marks))
  {
    var o := q.options;
    var k := KeySlot(q);
    assert Resolve(o, k) == q.answer by {
      assert o[k] == q.answer && o[k] != "";
    }
    RunQuestionOptionsMarker(st, q.text, o, k, marks);
  }

  /** Finalizing a block's pending question pushes exactly that question. */
  lemma FinalizeBlock(q: Question, marks: nat, done: seq<Question>)
    requires RenderableMcq(q, marks)
    ensures Finalize(McqState(Some(q.text), q.options, Some(q.answer), done), marks) == done + [q]
  {
    assert q.answer != "" by {
      var k := IndexOf(q.options, q.answer);
    }
    assert q.options[..4] == q.options;
  }

  /** A block followed by a blank line and more content. */
  lemma RunBlockThen(st: McqState, q: Question, rest: seq<LineShape>, marks: nat)
    requires RenderableMcq(q, marks)
    ensures Run(st, BlockShapes(q) + [Blank] + rest, marks)
         == Run(McqState(Some(q.text), q.options, Some(q.answer), Finalize(st, marks)), rest, marks)
  {
    RunAppend(st, BlockShapes(q) + [Blank], rest, marks);
    RunAppend(st, BlockShapes(q), [Blank], marks);
    RunBlock(st, q, marks);
  }

  lemma RunSingle(st: McqState, q: Question, marks: nat)
    requires RenderableMcq(q, marks)
    ensures Finalize(Run(st, BlockShapes(q), marks), marks) == Finalize(st, marks) + [q]
  {
    RunBlock(st, q, marks);
    FinalizeBlock(q, marks, Finalize(st, marks));
  }

  lemma {:induction false} RunMcqShapes(st: McqState, qs: seq<Question>, marks: nat)
    requires AllRenderable(qs, marks)
    ensures Finalize(Run(st, McqShapes(qs), marks), marks) == Finalize(st, marks) + qs
    decreases |qs|
  {
    if qs == [] {
      assert Finalize(st, marks) + qs == Finalize(st, marks);
    } else if |qs| == 1 {
      assert RenderableMcq(qs[0], marks);
      RunSingle(st, qs[0], marks);
      assert qs == [qs[0]];
    } else {
      AllRenderableTail(qs, marks);
      var q := qs[0];
      var st' := McqState(Some(q.text), q.options, Some(q.answer), Finalize(st, marks));
      RunMcqShapes(st', qs[1..], marks);
      RunMcqCons(st, q, qs[1..], marks);
      assert McqShapes(qs) == BlockShapes(q) + [Blank] + McqShapes(qs[1..]);
      assert qs == [q] + qs[1..];
    }
  }

  /** One step of `RunMcqShapes`: the first block, then the rest as the
      induction hypothesis gives it. */
  lemma RunMcqCons(st: McqState, q: Question, rest: seq<Question>, marks: nat)
    requires RenderableMcq(q, marks)
    requires var st' := McqState(Some(q.text), q.options, Some(q.answer), Finalize(st, marks));
      Finalize(Run(st', McqShapes(rest), marks), marks) == Finalize(st', marks) + rest
    ensures Finalize(Run(st, BlockShapes(q) + [Blank] + McqShapes(rest), marks), marks)
         == Finalize(st, marks) + ([q] + rest)
  {
    var st' := McqState(Some(q.text), q.options, Some(q.answer), Finalize(st, marks));
    RunBlockThen(st, q, McqShapes(rest), marks);
    FinalizeBlock(q, marks, Finalize(st, marks));
    assert Finalize(st, marks) + [q] + rest == Finalize(st, marks) + ([q] + rest);
  }

  lemma AllRenderableTail(qs: seq<Question>, marks: nat)
    requires qs != [] && AllRenderable(qs, marks)
    ensures RenderableMcq(qs[0], marks) && AllRenderable(qs[1..], marks)
  {
    assert RenderableMcq(qs[0], marks);
    forall i | 0 <= i < |qs| - 1 ensures RenderableMcq(qs[1..][i], marks) {
      assert qs[1..][i] == qs[i + 1];
    }
  }

  predicate NoNewlines(lines: seq<string>) {
    forall i | 0 <= i < |lines| :: '\n' !in lines[i]
  }

  lemma NoNewlinesAppend(a: seq<string>, b: seq<string>)
    requires NoNewlines(a) && NoNewlines(b)
    ensures NoNewlines(a + b)
  {
    forall i | 0 <= i < |a + b| ensures '\n' !in (a + b)[i] {
      if i >= |a| {
        assert (a + b)[i] == b[i - |a|];
      }
    }
  }

  lemma OptionRowNoNewline(i: nat, o: string)
    requires i < 4 && Clean(o)
    ensures '\n' !in OptionRow(i, o)
  {
    OptionRowShape(i, o);
    NoNewline(OptionRow(i, o));
  }

  lemma BlockNoNewlines(n: nat, q: Question, marks: nat)
    requires RenderableMcq(q, marks)
    ensures NoNewlines(Block(n, q))
  {
    var top := [QuestionRow(n, q.text)];
    var bottom := [MarkerRow(Letter(KeySlot(q)))];
    assert NoNewlines(top) by {
      QuestionRowShape(n, q.text);
      NoNewline(QuestionRow(n, q.text));
    }
    assert NoNewlines(OptionRows(q)) by {
      forall i | 0 <= i < 4 ensures '\n' !in OptionRows(q)[i] {
        OptionRowNoNewline(i, q.options[i]);
      }
    }
    NoNewlinesAppend(top, OptionRows(q));
    NoNewlinesAppend(top + OptionRows(q), bottom);
  }

  lemma {:induction false} McqLinesSingle(qs: seq<Question>, n: nat, marks: nat)
    requires AllRenderable(qs, marks)
    ensures NoNewlines(McqLines(qs, n))
    decreases |qs|
  {
    if qs != [] {
      assert RenderableMcq(qs[0], marks);
      BlockNoNewlines(n, qs[0], marks);
      if |qs| > 1 {
        var rest := qs[1..];
        AllRenderableTail(qs, marks);
        McqLinesSingle(rest, n + 1, marks);
        NoNewlinesAppend(Block(n, qs[0]), [""]);
        NoNewlinesAppend(Block(n, qs[0]) + [""], McqLines(rest, n + 1));
      }
    }
  }

  /** Parsing rendered MCQ content gives back the questions, in order. */
  lemma McqRoundTrip(qs: seq<Question>, marks: nat)
    requires AllRenderable(qs, marks)
    ensures McqQuestions(RenderMcq(qs), marks) == qs
  {
    if qs == [] {
      assert Split("") == [""];
      assert Classify("") == Blank;
      assert Fold(Initial, [""], marks) == Initial;
    } else {
      var lines := McqLines(qs, 1);
      McqLinesSingle(qs, 1, marks);
      SplitJoin(lines);
      FoldIsRun(Initial, lines, marks);
      ShapesOfMcqLines(qs, 1, marks);
      RunMcqShapes(Initial, qs, marks);
    }
  }

  // ---------------------------------------------------------------------------
  // Short-answer content

  /** A short question whose rendering parses back to itself. */
  predicate RenderableShort(q: Question, marks: nat) {
    q.kind == Short && q.options == [] && q.answer == ShortAnswerPlaceholder && q.marks == marks
    && Clean(q.text)
  }

  predicate AllRenderableShort(qs: seq<Question>, marks: nat) {
    forall i {:trigger RenderableShort(qs[i], marks)} | 0 <= i < |qs| :: RenderableShort(qs[i], marks)
  }

  /** One numbered line per question, numbered from 1. */
  function ShortLines(qs: seq<Question>): (r: seq<string>)
    ensures |r| == |qs| && forall i | 0 <= i < |qs| :: r[i] == QuestionRow(i + 1, qs[i].text)
  {
    seq(|qs|, i requires 0 <= i < |qs| => QuestionRow(i + 1, qs[i].text))
  }

  function RenderShort(qs: seq<Question>): string {
    if qs == [] then "" else Join(ShortLines(qs))
  }

  /** A numbered line loses its number and keeps its clean text. */
  lemma ShortOfRow(n: nat, q: Question, marks: nat)
    requires RenderableShort(q, marks)
    ensures ShortQuestion(QuestionRow(n, q.text), marks) == Some(q)
  {
    var line := QuestionRow(n, q.text);
    QuestionRowNumber(n, q.text);
    QuestionRowTrim(n, q.text);
    SpaceThenClean(q.text);
    var rest := line[|NatToString(n)| + 1..];
    assert rest[1..] == q.text;
    assert StripNumber(line) == q.text;
  }

  lemma {:induction false} ShortLinesParse(qs: seq<Question>, marks: nat)
    requires AllRenderableShort(qs, marks)
    ensures ShortQuestions(ShortLines(qs), marks) == qs
    decreases |qs|
  {
    if qs != [] {
      var init := qs[..|qs| - 1];
      var q := qs[|qs| - 1];
      var row := QuestionRow(|qs|, q.text);
      assert AllRenderableShort(init, marks) && RenderableShort(q, marks) by {
        AllRenderableShortInit(qs, marks);
      }
      ShortLinesParse(init, marks);
      ShortOfRow(|qs|, q, marks);
      ShortLinesSnoc(qs);
      ShortQuestionsSnoc(ShortLines(init), row, marks);
      LastSplit(qs);
    }
  }

  lemma AllRenderableShortInit(qs: seq<Question>, marks: nat)
    requires qs != [] && AllRenderableShort(qs, marks)
    ensures AllRenderableShort(qs[..|qs| - 1], marks) && RenderableShort(qs[|qs| - 1], marks)
  {
    var init := qs[..|qs| - 1];
    forall i | 0 <= i < |init| ensures RenderableShort(init[i], marks) {
      assert init[i] == qs[i];
    }
  }

  lemma ShortLinesSnoc(qs: seq<Question>)
    requires qs != []
    ensures ShortLines(qs) == ShortLines(qs[..|qs| - 1]) + [QuestionRow(|qs|, qs[|qs| - 1].text)]
  {
    var init := qs[..|qs| - 1];
    assert forall i | 0 <= i < |init| :: ShortLines(qs)[i] == ShortLines(init)[i];
  }

  lemma LastSplit(qs: seq<Question>)
    requires qs != []
    ensures qs == qs[..|qs| - 1] + [qs[|qs| - 1]]
  {
  }

  lemma ShortQuestionsSnoc(lines: seq<string>, line: string, marks: nat)
    requires ShortQuestion(line, marks).Some?
    ensures ShortQuestions(lines + [line], marks)
         == ShortQuestions(lines, marks) + [ShortQuestion(line, marks).value]
  {
    assert (lines + [line])[..|lines|] == lines;
  }

  lemma ShortLinesNoNewlines(qs: seq<Question>, marks: nat)
    requires AllRenderableShort(qs, marks)
    ensures NoNewlines(ShortLines(qs))
  {
    forall i | 0 <= i < |qs| ensures '\n' !in ShortLines(qs)[i] {
      assert RenderableShort(qs[i], marks);
      QuestionRowSingle(i + 1, qs[i].text);
      NoNewline(QuestionRow(i + 1, qs[i].text));
    }
  }

  /** Parsing rendered short-answer content gives back the questions, in order. */
  lemma ShortRoundTrip(qs: seq<Question>, marks: nat)
    requires AllRenderableShort(qs, marks)
    ensures ShortQuestions(Split(RenderShort(qs)), marks) == qs
  {
    if qs == [] {
      assert Split("") == [""];
      assert Trim("") == "";
    } else {
      ShortLinesNoNewlines(qs, marks);
      SplitJoin(ShortLines(qs));
      ShortLinesParse(qs, marks);
    }
  }

  // ---------------------------------------------------------------------------
  // A whole quiz

  lemma JoinHead(lines: seq<string>)
    requires |lines| >= 1 && lines[0] != []
    ensures Join(lines) != [] && Join(lines)[0] == lines[0][0]
  {
  }

  /** Content whose first line starts with a question number is not blank. */
  lemma NumberedNotBlank(lines: seq<string>, n: nat, t: string)
    requires |lines| >= 1 && lines[0] == QuestionRow(n, t)
    ensures Trim(Join(lines)) != ""
  {
    var d := NatToString(n);
    var s := Join(lines);
    assert lines[0][0] == d[0] && IsDigit(d[0]);
    JoinHead(lines);
    assert s != [] && !IsWhitespace(s[0]);
  }

  /** A quiz rendered as an MCQ block and a short-answer block structures back
      to its questions, MCQs first. */
  lemma QuizRoundTrip(mcq: seq<Question>, short: seq<Question>, mcqMarks: nat, shortMarks: nat)
    requires AllRenderable(mcq, mcqMarks) && AllRenderableShort(short, shortMarks)
    ensures QuizQuestions(RenderMcq(mcq), RenderShort(short), mcqMarks, shortMarks) == mcq + short
  {
    if mcq != [] {
      NumberedNotBlank(McqLines(mcq, 1), 1, mcq[0].text);
    } else {
      assert Trim(RenderMcq(mcq)) == "";
    }
    if short != [] {
      NumberedNotBlank(ShortLines(short), 1, short[0].text);
    } else {
      assert Trim(RenderShort(short)) == "";
    }
    McqRoundTrip(mcq, mcqMarks);
    ShortRoundTrip(short, shortMarks);
  }
}
