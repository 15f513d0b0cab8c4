/**
 * The review screen's highlighting: which option of which question is shown
 * as the correct answer and which as the user's wrong choice.
 */
module Review {
  import opened Wrappers
  import opened Questions

  datatype Mark = Unmarked | MarkedCorrect | MarkedWrong

  /**
   * The style of option `i` of question number `idx` when `current`
   * questions have been passed: the correct option is marked first, and the
   * second rule overrides it for a passed question's wrong choice.
   */
  function OptionMark(q: Question, idx: nat, current: nat, i: nat): (m: Mark)
    ensures m != Unmarked ==> i == q.correct || (idx < current && q.userAnswer == Some(i))
  {
    var style := if i == q.correct then MarkedCorrect else Unmarked;
    if current > idx && q.userAnswer == Some(i) && i != q.correct then MarkedWrong else style
  }

  /** The marks of all options of one question, in order. */
  function QuestionMarks(q: Question, idx: nat, current: nat): (marks: seq<Mark>)
    ensures |marks| == |q.answers|
    ensures forall i | 0 <= i < |marks| :: marks[i] == OptionMark(q, idx, current, i)
  {
    seq(|q.answers|, i requires 0 <= i < |q.answers| => OptionMark(q, idx, current, i))
  }

  /** The marks of the whole review, question by question. */
  function ReviewMarks(questions: seq<Question>, current: nat): (marks: seq<seq<Mark>>)
    ensures |marks| == |questions|
    ensures forall k | 0 <= k < |marks| :: marks[k] == QuestionMarks(questions[k], k, current)
  {
    seq(|questions|, k requires 0 <= k < |questions| => QuestionMarks(questions[k], k, current))
  }

  /** The correct option is always highlighted as correct, answered or not. */
  lemma CorrectAlwaysMarked(q: Question, idx: nat, current: nat)
    requires WellFormed(q)
    ensures QuestionMarks(q, idx, current)[q.correct] == MarkedCorrect
  {
  }

  /**
   * An option carries the wrong mark exactly when its question was passed,
   * it is the recorded answer and it is not the correct one; every other
   * option is marked correct exactly when it is the correct one.
   */
  lemma MarkMeaning(q: Question, idx: nat, current: nat, i: nat)
    ensures OptionMark(q, idx, current, i) == MarkedWrong <==>
      idx < current && q.userAnswer == Some(i) && i != q.correct
    ensures OptionMark(q, idx, current, i) == MarkedCorrect <==> i == q.correct
  {
  }

  /** At most one option of a question is marked wrong, and it is the recorded answer. */
  lemma AtMostOneWrong(q: Question, idx: nat, current: nat, i: nat, j: nat)
    requires i < |q.answers| && j < |q.answers|
    requires QuestionMarks(q, idx, current)[i] == MarkedWrong
    requires QuestionMarks(q, idx, current)[j] == MarkedWrong
    ensures i == j && q.userAnswer == Some(i)
  {
    MarkMeaning(q, idx, current, i);
    MarkMeaning(q, idx, current, j);
  }

  /** A question answered correctly, left unanswered, or not yet reached shows no wrong mark. */
  lemma NoWrongMark(q: Question, idx: nat, current: nat, i: nat)
    requires i < |q.answers|
    requires q.userAnswer == Some(q.correct as int) || q.userAnswer == None || current <= idx
    ensures QuestionMarks(q, idx, current)[i] != MarkedWrong
  {
  }
}
