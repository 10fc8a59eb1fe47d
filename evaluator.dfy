/** `evaluateShortAnswer`: the language-model grader of short answers, with
    the service itself abstracted to the reply it gives (or its failure). */
module Evaluator {
  import opened Wrappers

  /** The two servers' evaluators. `index.js` asks the service for marks out
      of 5 and turns them into a similarity by dividing by 5; `index.new.js`
      asks for a similarity between 0 and 1 and passes it on unchanged. */
  datatype ScoringStyle = MarksOutOfFive | DirectSimilarity

  /** What one request to the service yields: the number in the field the
      prompt asks for (marks or similarity) with its feedback, or a failure of
      any kind inside the evaluator's `try` (no client configured, a network
      error, a reply that is not a JSON object). */
  datatype ServiceOutcome = Answered(score: real, feedback: string) | Failed

  /** The fields of the evaluator's result that the grading code reads.
      `marks` is `None` where the result object has no `marks` field. */
  datatype Evaluation = Evaluation(similarity: real, marks: Option<real>, feedback: string)

  const FallbackFeedback: string := "Graded without AI due to service error"

  /** The similarity the fallback result claims: lenient for any answer that
      is not the empty string (blank answers included). */
  function FallbackSimilarity(studentAnswer: string): real {
    if |studentAnswer| > 0 then 0.7 else 0.0
  }

  /** A reply in the range the prompt asks for. */
  predicate InRange(style: ScoringStyle, score: real) {
    match style
    case MarksOutOfFive => 0.0 <= score <= 5.0
    case DirectSimilarity => 0.0 <= score <= 1.0
  }

  /** The evaluator's result. It has no error case: every failure inside the
      evaluator ends in the fallback result. */
  function Evaluate(style: ScoringStyle, outcome: ServiceOutcome, studentAnswer: string): (r: Evaluation)
    ensures outcome.Failed? || style == DirectSimilarity ==> r.marks.None?
    ensures outcome.Failed? ==> r.feedback == FallbackFeedback
    ensures outcome.Answered? ==> r.feedback == outcome.feedback
    ensures outcome.Answered? && style == MarksOutOfFive ==>
      r.marks == Some(outcome.score) && r.similarity * 5.0 == outcome.score
    ensures outcome.Answered? && style == DirectSimilarity ==> r.similarity == outcome.score
  {
    match outcome
    case Failed => Evaluation(FallbackSimilarity(studentAnswer), None, FallbackFeedback)
    case Answered(score, feedback) =>
      match style
      case MarksOutOfFive => Evaluation(score / 5.0, Some(score), feedback)
      case DirectSimilarity => Evaluation(score, None, feedback)
  }

  /** On a failure the result is the fixed fallback: similarity 0.7 exactly
      when the raw answer is not empty (0 otherwise), no marks, fixed feedback. */
  lemma FallbackResult(style: ScoringStyle, studentAnswer: string)
    ensures var e := Evaluate(style, Failed, studentAnswer);
      (e.similarity == 0.7 <==> studentAnswer != []) && (e.similarity == 0.0 <==> studentAnswer == [])
      && e.marks.None? && e.feedback == FallbackFeedback
  {
  }

  /** A reply of marks out of 5 becomes a similarity a fifth of it, and the
      raw marks stay in the result; a direct similarity is passed on as is. */
  lemma ReplyResult(style: ScoringStyle, score: real, feedback: string, studentAnswer: string)
    ensures var e := Evaluate(style, Answered(score, feedback), studentAnswer);
      e.feedback == feedback
      && (style == MarksOutOfFive ==> e.similarity * 5.0 == score && e.marks == Some(score))
      && (style == DirectSimilarity ==> e.similarity == score && e.marks.None?)
  {
  }

  /** The similarity is a fraction whenever the service keeps to its range. */
  lemma SimilarityInUnit(style: ScoringStyle, outcome: ServiceOutcome, studentAnswer: string)
    requires outcome.Answered? ==> InRange(style, outcome.score)
    ensures 0.0 <= Evaluate(style, outcome, studentAnswer).similarity <= 1.0
  {
  }

  /** The result does not depend on the answer except through the fallback's
      emptiness test. */
  lemma AnswerOnlyMattersWhenFailed(style: ScoringStyle, outcome: ServiceOutcome, a: string, b: string)
    requires outcome.Answered? || (|a| > 0 <==> |b| > 0)
    ensures Evaluate(style, outcome, a) == Evaluate(style, outcome, b)
  {
  }
}
