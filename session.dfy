/**
 * The quiz page's session: the question list, the index of the question on
 * screen, the score, and for the question on screen its selection and its
 * countdown. Each handler of the page is a method; timer ticks arrive as
 * explicit calls.
 */
module Session {
  import opened Wrappers
  import opened Questions
  import opened Grading
  import opened Review
  import Catalog

  /** Seconds on the clock when a question is entered. */
  const SecondsPerQuestion := 15

  predicate AnsweredCorrectly(q: Question)
  {
    q.userAnswer == Some(q.correct as int)
  }

  /** How many of the first `n` questions hold a recorded answer equal to their correct index. */
  function CorrectCount(qs: seq<Question>, n: nat): nat
    requires n <= |qs|
  {
    if n == 0 then 0 else CorrectCount(qs, n - 1) + (if AnsweredCorrectly(qs[n - 1]) then 1 else 0)
  }

  /** Never more correct answers than questions counted. */
  lemma {:induction false} CorrectCountBound(qs: seq<Question>, n: nat)
    requires n <= |qs|
    ensures CorrectCount(qs, n) <= n
  {
    if n > 0 {
      CorrectCountBound(qs, n - 1);
    }
  }

  /** Replacing a question at or after position `n` leaves the count of the first `n` alone. */
  lemma {:induction false} CorrectCountPrefix(qs: seq<Question>, n: nat, k: nat, x: Question)
    requires n <= k < |qs|
    ensures CorrectCount(qs[k := x], n) == CorrectCount(qs, n)
  {
    if n > 0 {
      CorrectCountPrefix(qs, n - 1, k, x);
    }
  }

  /** Recording an answer at position `n` and counting one further adds one exactly when it is correct. */
  lemma CorrectCountRecord(qs: seq<Question>, n: nat, x: Question)
    requires n < |qs|
    ensures CorrectCount(qs[n := x], n + 1) == CorrectCount(qs, n) + (if AnsweredCorrectly(x) then 1 else 0)
  {
    CorrectCountPrefix(qs, n, n, x);
  }

  /** The count reaches the number of questions exactly when every one of them was answered correctly. */
  lemma {:induction false} CorrectCountFull(qs: seq<Question>, n: nat)
    requires n <= |qs|
    ensures CorrectCount(qs, n) == n <==> forall i | 0 <= i < n :: AnsweredCorrectly(qs[i])
  {
    if n > 0 {
      CorrectCountFull(qs, n - 1);
      CorrectCountBound(qs, n - 1);
    }
  }

  /** A non-empty quiz answered correctly throughout is graded A+ with "Perfect!". */
  lemma AllCorrectIsPerfect(qs: seq<Question>)
    requires |qs| > 0 && forall i | 0 <= i < |qs| :: AnsweredCorrectly(qs[i])
    ensures Summarize(CorrectCount(qs, |qs|), |qs|).grade == APlus
    ensures Summarize(CorrectCount(qs, |qs|), |qs|).feedback == "Perfect! \U{1F389}"
  {
    CorrectCountFull(qs, |qs|);
    GradeBoundaries(|qs|, |qs|);
  }

  /** What the quiz box shows. */
  datatype View =
    | Options                          // before a quiz is started
    | Asking                           // the question at `current`, with its countdown
    | Finished(summary: Summary)       // the result screen
    | Reviewing(marks: seq<seq<Mark>>) // the answer review

  class QuizSession {
    var questions: seq<Question>
    var current: nat
    var score: nat
    var selectedCategory: string
    /** The option highlighted on the question on screen. */
    var selected: Option<int>
    /** Seconds left on the question on screen. */
    var timer: int
    var view: View

    /**
     * The session invariant: the index never passes the end, the score is
     * the number of correctly answered questions before the index, a
     * question is on screen only while one is left and its clock runs
     * between 15 and 1, and the result and review screens appear only once
     * every question is passed and show the session's own numbers.
     */
    ghost predicate Valid()
      reads this
    {
      Consistent() && (view.Asking? ==> 1 <= timer <= SecondsPerQuestion)
    }

    /** `Valid` without the clock's range: what holds while the last tick submits at zero. */
    ghost predicate Consistent()
      reads this
    {
      current <= |questions| &&
      score == CorrectCount(questions, current) &&
      (view.Asking? ==> current < |questions|) &&
      (view.Finished? ==> current == |questions| && view.summary == Summarize(score, |questions|)) &&
      (view.Reviewing? ==> current == |questions| && view.marks == ReviewMarks(questions, current))
    }

    /** The quiz page as loaded: the options form, no questions, category 'any'. */
    constructor ()
      ensures Valid() && view == Options
      ensures questions == [] && current == 0 && score == 0 && selectedCategory == "any"
    {
      questions := [];
      current := 0;
      score := 0;
      selectedCategory := "any";
      selected := None;
      timer := SecondsPerQuestion;
      view := Options;
    }

    /**
     * `showQuestion`: the result screen once the list is exhausted, otherwise
     * the question at `current` with a fresh countdown and its recorded
     * answer (if any) preselected.
     */
    method ShowQuestion()
      requires current <= |questions| && score == CorrectCount(questions, current)
      modifies this
      ensures Valid()
      ensures questions == old(questions) && current == old(current) && score == old(score)
      ensures selectedCategory == old(selectedCategory)
      ensures current >= |questions| ==> view == Finished(Summarize(score, |questions|))
      ensures current < |questions| ==>
        view == Asking && timer == SecondsPerQuestion && selected == questions[current].userAnswer
    {
      if current >= |questions| {
        view := Finished(Summarize(score, |questions|));
        return;
      }
      selected := questions[current].userAnswer;
      timer := SecondsPerQuestion;
      view := Asking;
    }

    /** The options form was submitted and `qs` came back from the question source. */
    method Start(category: string, qs: seq<Question>)
      modifies this
      ensures Valid()
      ensures questions == qs && current == 0 && score == 0 && selectedCategory == category
      ensures |qs| == 0 ==> view == Finished(Summarize(0, 0))
      ensures |qs| > 0 ==> view == Asking && timer == SecondsPerQuestion && selected == qs[0].userAnswer
    {
      selectedCategory := category;
      questions := qs;
      current := 0;
      score := 0;
      ShowQuestion();
    }

    /** An answer button was clicked. */
    method Select(i: nat)
      requires Valid() && view.Asking? && i < |questions[current].answers|
      modifies this
      ensures Valid()
      ensures selected == Some(i as int)
      ensures questions == old(questions) && current == old(current) && score == old(score)
      ensures timer == old(timer) && view == old(view) && selectedCategory == old(selectedCategory)
    {
      selected := Some(i);
    }

    /**
     * `submitAnswer` (the Next button, or the clock running out): record the
     * selection on the question, score it, move to the next question.
     */
    method SubmitAnswer()
      requires Consistent() && view.Asking?
      modifies this
      ensures Valid()
      ensures questions == old(questions)[old(current) := old(questions[current]).(userAnswer := old(selected))]
      ensures score == old(score) + (if old(selected) == Some(old(questions[current]).correct as int) then 1 else 0)
      ensures current == old(current) + 1
      ensures selectedCategory == old(selectedCategory)
      ensures current >= |questions| ==> view == Finished(Summarize(score, |questions|))
      ensures current < |questions| ==>
        view == Asking && timer == SecondsPerQuestion && selected == questions[current].userAnswer
    {
      var q := questions[current];
      var answered := q.(userAnswer := selected);
      CorrectCountRecord(questions, current, answered);
      questions := questions[current := answered];
      if selected == Some(q.correct as int) {
        score := score + 1;
      }
      current := current + 1;
      ShowQuestion();
    }

    /**
     * One second of the countdown. The clock starts at 15, so ticks one to
     * fourteen only count down and the fifteenth submits the selection.
     */
    method Tick()
      requires Valid() && view.Asking?
      modifies this
      ensures Valid()
      ensures old(timer) > 1 ==>
        timer == old(timer) - 1 && view == Asking && selected == old(selected) &&
        questions == old(questions) && current == old(current) && score == old(score)
      ensures old(timer) == 1 ==>
        questions == old(questions)[old(current) := old(questions[current]).(userAnswer := old(selected))] &&
        score == old(score) + (if old(selected) == Some(old(questions[current]).correct as int) then 1 else 0) &&
        current == old(current) + 1
      ensures old(timer) == 1 && current >= |questions| ==> view == Finished(Summarize(score, |questions|))
      ensures old(timer) == 1 && current < |questions| ==>
        view == Asking && timer == SecondsPerQuestion && selected == questions[current].userAnswer
      ensures selectedCategory == old(selectedCategory)
    {
      timer := timer - 1;
      if timer <= 0 {
        SubmitAnswer();
      }
    }

    /** The Review button of the result screen. */
    method ShowReview()
      requires Valid() && view.Finished?
      modifies this
      ensures Valid()
      ensures view == Reviewing(ReviewMarks(questions, current))
      ensures questions == old(questions) && current == old(current) && score == old(score)
      ensures selectedCategory == old(selectedCategory)
    {
      view := Reviewing(ReviewMarks(questions, current));
    }

    /**
     * The Restart button of the result or review screen: back to the first
     * question of the same list, score zero, recorded answers kept.
     */
    method Restart()
      requires Valid() && (view.Finished? || view.Reviewing?)
      modifies this
      ensures Valid()
      ensures questions == old(questions) && current == 0 && score == 0
      ensures selectedCategory == old(selectedCategory)
      ensures |questions| == 0 ==> view == Finished(Summarize(0, 0))
      ensures |questions| > 0 ==>
        view == Asking && timer == SecondsPerQuestion && selected == questions[0].userAnswer
    {
      current := 0;
      score := 0;
      ShowQuestion();
    }

    /** The media shown with the question on screen: its own, else the chosen category's picture. */
    function ShownMedia(): (m: Media)
      reads this
      requires Valid() && view.Asking?
      ensures questions[current].media.Some? ==> m == questions[current].media.value
      ensures questions[current].media.None? ==> m == Media(Image, Catalog.CategoryImage(selectedCategory))
    {
      Catalog.MediaShown(questions[current], selectedCategory)
    }

    /** The score never exceeds the number of questions passed. */
    lemma ScoreBounded()
      requires Valid()
      ensures score <= current <= |questions|
    {
      CorrectCountBound(questions, current);
    }
  }
}
