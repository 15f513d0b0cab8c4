/**
 * Quiz questions and the normalisation of a trivia-service record into one:
 * the incorrect answers are copied and the correct answer is spliced in at a
 * chosen position, which becomes the question's correct index.
 */
module Questions {
  import opened Wrappers

  datatype MediaKind = Image | Audio | Video

  datatype Media = Media(kind: MediaKind, url: string)

  /**
   * A question as the quiz engine holds it. `userAnswer` is None until the
   * question is submitted, and again None when it was submitted with no
   * selection (the source's `undefined` and `null`).
   */
  datatype Question = Question(
    text: string,
    answers: seq<string>,
    correct: nat,
    media: Option<Media>,
    userAnswer: Option<int>)

  /** One element of the trivia service's `results` list. */
  datatype RawQuestion = RawQuestion(question: string, correctAnswer: string, incorrectAnswers: seq<string>)

  /** The correct index names one of the answers. */
  predicate WellFormed(q: Question)
  {
    q.correct < |q.answers|
  }

  /** `s` with `x` inserted before position `k` (`splice(k, 0, x)`). */
  function Spliced<T>(s: seq<T>, k: nat, x: T): seq<T>
    requires k <= |s|
  {
    s[..k] + [x] + s[k..]
  }

  /** `s` with the element at position `k` deleted. */
  function RemovedAt<T>(s: seq<T>, k: nat): seq<T>
    requires k < |s|
  {
    s[..k] + s[k + 1..]
  }

  /** Splicing grows the list by one, puts `x` at `k` and deleting it gives the list back, order kept. */
  lemma SplicedInverse<T>(s: seq<T>, k: nat, x: T)
    requires k <= |s|
    ensures |Spliced(s, k, x)| == |s| + 1
    ensures Spliced(s, k, x)[k] == x
    ensures RemovedAt(Spliced(s, k, x), k) == s
    ensures multiset(Spliced(s, k, x)) == multiset(s) + multiset{x}
  {
    var r := Spliced(s, k, x);
    assert r[..k] == s[..k] && r[k + 1..] == s[k..];
    assert s == s[..k] + s[k..];
  }

  /** The three facts above pin the spliced list down: any list with them is it. */
  lemma SplicedUnique<T>(s: seq<T>, k: nat, x: T, r: seq<T>)
    requires k <= |s| && |r| == |s| + 1 && r[k] == x && RemovedAt(r, k) == s
    ensures r == Spliced(s, k, x)
  {
    var t := Spliced(s, k, x);
    forall i | 0 <= i < |r| ensures r[i] == t[i] {
      if i < k {
        assert r[i] == RemovedAt(r, k)[i];
      } else if i > k {
        assert r[i] == RemovedAt(r, k)[i - 1];
      }
    }
  }

  /** The question that normalising `raw` with the correct answer at `k` yields. */
  function Normalized(raw: RawQuestion, k: nat): (q: Question)
    requires k <= |raw.incorrectAnswers|
    ensures WellFormed(q) && q.correct == k && q.answers[k] == raw.correctAnswer
    ensures RemovedAt(q.answers, k) == raw.incorrectAnswers
    ensures q.text == raw.question && q.media == None && q.userAnswer == None
  {
    SplicedInverse(raw.incorrectAnswers, k, raw.correctAnswer);
    Question(raw.question, Spliced(raw.incorrectAnswers, k, raw.correctAnswer), k, None, None)
  }

  /**
   * `[...incorrect]` followed by `answers.splice(k, 0, correct)`: the copy is
   * made one slot longer and the tail from `k` on is shifted right by one.
   */
  method SpliceAnswers(incorrect: seq<string>, k: nat, correct: string) returns (answers: seq<string>)
    requires k <= |incorrect|
    ensures answers == Spliced(incorrect, k, correct)
  {
    var n := |incorrect|;
    var a := new string[n + 1];
    for i := 0 to n
      invariant forall m | 0 <= m < i :: a[m] == incorrect[m]
    {
      a[i] := incorrect[i];
    }
    var j := n;
    while j > k
      invariant k <= j <= n
      invariant forall m | 0 <= m < j :: a[m] == incorrect[m]
      invariant forall m | j < m <= n :: a[m] == incorrect[m - 1]
    {
      a[j] := a[j - 1];
      j := j - 1;
    }
    a[k] := correct;
    answers := a[..];
    forall m | 0 <= m <= n
      ensures answers[m] == Spliced(incorrect, k, correct)[m]
    {
      if m > k {
        assert Spliced(incorrect, k, correct)[m] == incorrect[k..][m - k - 1];
      }
    }
  }

  /** Normalises one fetched record, with `k` standing for `Math.floor(Math.random() * (n + 1))`. */
  method Normalize(raw: RawQuestion, k: nat) returns (q: Question)
    requires k <= |raw.incorrectAnswers|
    ensures q == Normalized(raw, k)
    ensures WellFormed(q) && |q.answers| == |raw.incorrectAnswers| + 1
    ensures q.answers[q.correct] == raw.correctAnswer
    ensures RemovedAt(q.answers, q.correct) == raw.incorrectAnswers
    ensures q.text == raw.question && q.media == None && q.userAnswer == None
  {
    var answers := SpliceAnswers(raw.incorrectAnswers, k, raw.correctAnswer);
    SplicedInverse(raw.incorrectAnswers, k, raw.correctAnswer);
    q := Question(raw.question, answers, k, None, None);
  }

  /** The insertion positions chosen for a list of records are all in range. */
  predicate ValidPositions(results: seq<RawQuestion>, positions: seq<nat>)
  {
    |positions| == |results| &&
    forall i | 0 <= i < |results| :: positions[i] <= |results[i].incorrectAnswers|
  }

  /** `results.map(normalise)`, position by position. */
  function NormalizedAll(results: seq<RawQuestion>, positions: seq<nat>): seq<Question>
    requires ValidPositions(results, positions)
  {
    seq(|results|, i requires 0 <= i < |results| => Normalized(results[i], positions[i]))
  }

  /** Normalises every fetched record in order. */
  method NormalizeAll(results: seq<RawQuestion>, positions: seq<nat>) returns (qs: seq<Question>)
    requires ValidPositions(results, positions)
    ensures qs == NormalizedAll(results, positions)
    ensures forall i | 0 <= i < |qs| :: WellFormed(qs[i]) && qs[i].answers[qs[i].correct] == results[i].correctAnswer
  {
    qs := [];
    for i := 0 to |results|
      invariant |qs| == i
      invariant forall j | 0 <= j < i :: qs[j] == Normalized(results[j], positions[j])
      invariant forall j | 0 <= j < i :: WellFormed(qs[j]) && qs[j].answers[qs[j].correct] == results[j].correctAnswer
    {
      var q := Normalize(results[i], positions[i]);
      qs := qs + [q];
    }
  }
}
