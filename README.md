# Quiz engine of the trivia quiz web app, modelled in Dafny

The app (`app.js`) is a browser trivia quiz. Users sign up or log in through a hosted
identity provider. They pick a category, a difficulty and a number of questions. The
quiz is built from the category's built-in multimedia question plus questions fetched
from the Open Trivia DB API. Questions are shown one at a time with a 15-second
countdown, and the session ends with a percentage, a letter grade and an answer review.

This project models the decision-making core of that file:

- `text.dfy` (`Text`): `String.prototype.includes` as `Contains`, and `${n}` for a
  natural number below 10^21 as `Decimal`, with its read-back `DecimalValue`.
- `auth.dfy` (`Auth`): the labels `setMode` writes, and the two error-mapping chains
  (sign-up and sign-in). Each chain is checked against a table-driven "first matching
  rule wins" reference, `Remap`. The form's state is the class `AuthView`, whose
  methods are the form's handlers.
- `grading.dfy` (`Grading`): `Math.round(score / total * 100)` as exact round-half-up,
  the A+/A/B/C/D chain and its feedback lines, and the empty-quiz case.
- `questions.dfy` (`Questions`): the question record and the normalisation of a fetched
  record. The incorrect answers are copied into an array one slot longer, and the
  correct answer is spliced in at a given index.
- `catalog.dfy` (`Catalog`): the built-in multimedia questions, the category pictures,
  the API query URL and `fetchQuestions`' assembly of the question list.
- `review.dfy` (`Review`): which option of which question the review shows as correct,
  and which as the user's wrong choice.
- `session.dfy` (`Session`): the quiz session as the class `QuizSession`. It holds the
  question list with the recorded answers, `current`, `score`, the selected category,
  the current selection, the countdown and the screen shown. Each handler is a method:
  start, select, next/submit, timer tick, review, restart. The class invariant says
  that `score` is the number of questions before `current` whose recorded answer is
  their correct index. The bound `score <= current <= |questions|` follows from
  it.

Randomness, time and I/O are inputs. The random insertion index of each fetched
question is a parameter ranging over `[0, |incorrect answers|]`. Each timer tick is a
method call. The service's `results` list is a parameter of `FetchQuestions`, which
returns the URL it would request.

Some behaviours of the code are easy to miss; the model follows the code:

- Grades at the lower edges. After rounding, a ratio in [0.395, 0.40) reaches 40% and
  earns C, not D. A ratio in [0.795, 0.80) earns A. `Grading.GradeByRatio` gives the
  exact bands.
- A+ does not need a perfect score. "Perfect!" is shown whenever the rounded percentage
  is 100, which includes `score = total - 1` once `total >= 200`.
- Restart keeps recorded answers. It resets `current` and `score` only. Each recorded
  answer is preselected again when its question comes back.
- Answer count. A fetched question has `|incorrect_answers| + 1` answers, not
  necessarily four.
- Small requests. When `num` is at most the number of built-in questions, the whole
  built-in list is returned, even for `num = 0`.

## Model

| member | source | states |
|---|---|---|
| `Text.DecimalRoundTrip` | app.js:279 | the decimal text put into the query reads back as the same number |
| `Auth.SignupMessage` | app.js:46-53 | a failed sign-up shows either the provider's text unchanged or one of the three fixed messages, and a fixed message only when one of the three codes occurs |
| `Auth.SigninMessage` | app.js:63-70 | a failed sign-in shows either the provider's text unchanged or one of the three fixed messages, and a fixed message only when one of the four codes occurs |
| `Auth.RemapFirstMatch` | app.js:47-53 | in an error chain, the first rule whose code occurs in the text decides the message |
| `Auth.RemapNoMatch` | app.js:46-53 | when no code occurs, the provider's text is returned unchanged |
| `Auth.SignupFollowsRules` | app.js:46-53 | the sign-up chain equals first-match over the table: email in use, then invalid email, then weak password |
| `Auth.SigninFollowsRules` | app.js:63-70 | the sign-in chain equals first-match over the table: invalid credentials or wrong password, then user not found, then too many requests |
| `Auth.SignupPassThrough` | app.js:46-55 | a sign-up error is shown verbatim if and only if it contains none of the three codes |
| `Auth.SigninPassThrough` | app.js:63-72 | a sign-in error is shown verbatim if and only if it contains none of the four codes |
| `Auth.SignupIdempotent` | app.js:46-53 | mapping an already mapped sign-up message changes nothing, because no fixed message contains a code |
| `Auth.SigninIdempotent` | app.js:63-70 | the same for the sign-in chain |
| `Auth.SigninSharedMessage` | app.js:64-65 | `INVALID_LOGIN_CREDENTIALS` and `auth/wrong-password` lead to the same message |
| `Auth.MessagesLackCodeMarks` | app.js:48-69 | none of the six fixed messages contains '/' or '_', which every code contains |
| `Auth.ModeLabels` | app.js:16-17 | in either mode the submit button and the toggle link carry different texts |
| `Auth.ModeLabelsDistinguish` | app.js:16-17 | the submit label tells the two modes apart, and login mode's toggle names the sign-up mode |
| `Auth.AuthView.constructor` | app.js:12 | the page starts in login mode with an empty error line |
| `Auth.AuthView.SetMode` | app.js:14-19 | sets the mode, writes that mode's labels and clears the error line; inputs unchanged |
| `Auth.AuthView.Toggle` | app.js:21-25 | flips the mode with `setMode` |
| `Auth.AuthView.Type` | app.js:30-31 | an environment step: the user's typing sets the two inputs the handlers read, and nothing else |
| `Auth.AuthView.Submit` | app.js:28-34 | clears the error line, then asks to create an account in sign-up mode or to sign in otherwise, with the current inputs |
| `Auth.AuthView.SignupSucceeded` | app.js:35-37 | shows the confirmation in green |
| `Auth.AuthView.SignupDelayElapsed` | app.js:38-43 | back to login mode, with both inputs and the error line emptied |
| `Auth.AuthView.SignupFailed` | app.js:45-56 | shows the mapped sign-up message in red |
| `Auth.AuthView.SigninFailed` | app.js:62-74 | shows the mapped sign-in message in red |
| `Grading.Percent` | app.js:94 | the nearest integer to 100*score/total with halves rounded up; at most 100 when score <= total |
| `Grading.PercentAtLeast` | app.js:94 | the rounded percentage reaches n exactly when 200*score + total >= 2*total*n |
| `Grading.Summarize` | app.js:93-112 | the result screen's numbers; an empty quiz has no percentage (NaN) and gets D; feedback always matches the grade |
| `Grading.GradeOf` | app.js:97-112 | A+ exactly at 100, D exactly below 40, and between them one grade per 20 points (C, B, A) |
| `Grading.Feedback` | app.js:99-111 | "Perfect! 🎉" is the feedback of A+ and of no other grade |
| `Grading.GradeByRatio` | app.js:94-112 | the grade as a function of score/total: A+ iff >= 0.995, A iff in [0.795, 0.995), B iff in [0.595, 0.795), C iff in [0.395, 0.595), D below |
| `Grading.GradeBoundaries` | app.js:97-108 | ratio 1 gives A+ with "Perfect! 🎉"; 4/5 gives A; 3/5 gives B; 2/5 gives C |
| `Grading.GradeMonotone` | app.js:97-112 | more correct answers never give a lower grade |
| `Questions.SplicedInverse` | app.js:286-288 | splicing adds one answer, puts the correct answer at the index, and deleting that index gives back the incorrect answers in order (same multiset plus the correct answer) |
| `Questions.SplicedUnique` | app.js:286-288 | those three facts determine the answer list completely |
| `Questions.SpliceAnswers` | app.js:286-288 | the in-array copy and shift produce exactly the spliced list |
| `Questions.Normalized` | app.js:286-293 | the normalised question is well formed, holds the correct answer at index k and the incorrect ones around it in order, keeps the text, and has no media and no recorded answer |
| `Questions.Normalize` | app.js:285-294 | a fetched record becomes a well-formed question: the correct answer at the chosen index, the incorrect ones around it in order, no media, no recorded answer |
| `Questions.NormalizeAll` | app.js:305-314 | every record is normalised in order, each one well-formed with its correct answer at its correct index |
| `Catalog.CategoryImage` | app.js:181 | a configured category gets its picture; any other category gets the 'any' picture |
| `Catalog.MediaShown` | app.js:185-195 | a question with its own media shows it; otherwise the category picture is shown |
| `Catalog.MultimediaWellFormed` | app.js:237-274 | each category has exactly one built-in question, with four answers, a valid correct index, its own media and no recorded answer |
| `Catalog.AnimalCategories` | app.js:238-243 | categories "9" and "any" both hold only the animal question, whose correct answer is "Dog" |
| `Catalog.QueryUrl` | app.js:279-282 | the request goes to the trivia endpoint with `amount=` and always ends with `&type=multiple` |
| `Catalog.QueryTailShape` | app.js:280-282 | after the amount, the query continues with '&' and ends with `&type=multiple` |
| `Catalog.QueryUrlAmount` | app.js:279-282 | the URL starts with the API prefix and `amount=`; the amount read back from it is the one requested; it ends with `&type=multiple` |
| `Catalog.QueryUrlCategory` | app.js:280 | the URL contains `&category=` if and only if the category is not 'any' |
| `Catalog.QueryUrlDifficulty` | app.js:281 | the URL contains `&difficulty=` if and only if the difficulty is not 'any' |
| `Catalog.FetchQuestions` | app.js:275-314 | built-in questions come first. The service is asked for `num - built-in` questions only when `num` exceeds the built-in count; otherwise no request is made. An unknown category asks for `num`. Every returned question is well-formed and unanswered |
| `Review.OptionMark` | app.js:140-142 | an option is highlighted only when it is the correct one or the recorded answer of a question already passed |
| `Review.QuestionMarks` | app.js:139-144 | one mark per answer option, each given by the option's styling rule |
| `Review.ReviewMarks` | app.js:136-146 | one list of marks per question, in order |
| `Review.CorrectAlwaysMarked` | app.js:141 | the option at the correct index is always styled correct |
| `Review.MarkMeaning` | app.js:140-142 | an option is styled wrong iff its question is passed, it is the recorded answer and it is not correct; it is styled correct iff it is the correct index |
| `Review.AtMostOneWrong` | app.js:142 | at most one option per question is styled wrong, and it is the recorded answer |
| `Review.NoWrongMark` | app.js:142 | a question answered correctly, left unanswered, or not yet reached shows no wrong mark |
| `Session.CorrectCountBound` | app.js:217-218 | the number of correctly answered questions among the first n is at most n |
| `Session.CorrectCountPrefix` | app.js:216 | recording an answer at position k or later leaves the count of the first k unchanged |
| `Session.CorrectCountRecord` | app.js:216-218 | recording an answer at `current` and advancing adds one to the count exactly when the answer is correct |
| `Session.CorrectCountFull` | app.js:217 | the count equals the number of questions iff every question was answered correctly |
| `Session.AllCorrectIsPerfect` | app.js:94-99 | a non-empty quiz answered correctly throughout ends with A+ and "Perfect! 🎉" |
| `Session.QuizSession.constructor` | app.js:84-85 | no questions, `current = score = 0`, category 'any', options form shown |
| `Session.QuizSession.ShowQuestion` | app.js:170-177 | the result screen when `current >= |questions|`; otherwise the question at `current`, with 15 seconds and its recorded answer preselected (None when there is none) |
| `Session.QuizSession.Start` | app.js:318-328 | a new list with `current = score = 0`, then the first question, or the result screen for an empty list |
| `Session.QuizSession.Select` | app.js:206-209 | only the selection changes |
| `Session.QuizSession.SubmitAnswer` | app.js:214-220 | records the selection on the current question only. Adds one to the score exactly when the selection is the correct index, so no selection never scores. Advances by exactly one and keeps the session invariant |
| `Session.QuizSession.Tick` | app.js:222-230 | a tick with more than one second left only counts down; the tick that reaches zero, i.e. the 15th, submits the current selection once |
| `Session.QuizSession.ShowReview` | app.js:123 | the review shows the marks of every question at the final index |
| `Session.QuizSession.Restart` | app.js:124-128 | `current` and `score` back to 0; the same question list, recorded answers included; then the first question. The review's restart at app.js:149-153 is the same handler |
| `Session.QuizSession.ShownMedia` | app.js:181-195 | the question on screen shows its own media, else the selected category's picture |
| `Session.QuizSession.ScoreBounded` | app.js:214-218 | in every valid state `score <= current <= |questions|` |

## Left out

- Submitting the options form while a question is on screen. `showQuestion`'s
  interval handle is local to that call (app.js:178, 223-231) and the form handler
  (app.js:318-328) does not clear it, so the old countdown keeps running into the
  new quiz: at zero it records an answer on a question of the old list, advances the
  shared `current`, possibly raises `score`, and starts a further countdown.
  `Session.QuizSession.Start` has one clock and restarts it, so the model does not
  capture this leaked countdown.

- `decodeHTML` relies on the browser's entity decoding. Question and answer texts are
  kept as received.
- DOM rendering is not modelled: the HTML templates, button wiring, element lookups and
  the error line's `display` style. Only the decisions they display are modelled.
- The identity provider's calls are not modelled: account creation, sign-in and
  sign-out. Also left out are the page navigations after sign-in, after logout and on
  "Go Home". `AuthView.Submit` only returns the request it would send.
- `fetch` and `res.json()` are not modelled. The reply's `results` list is an input,
  and a failed request or malformed reply is not represented.
- `setTimeout` and `setInterval` scheduling are not modelled. Each tick is a call to
  `Tick`, and a cleared interval never fires again: `Tick` requires the question screen.
- `Math.random` is not modelled. Each insertion index is a parameter with
  `0 <= k <= |incorrect answers|`.
- The percentage uses exact arithmetic. Floating-point `score / total * 100` can land
  just below an exact .5 and round down where the model rounds up.
- `num` is a natural number in the model; fractional values, and values from 10^21 up
  (which JavaScript prints as `1e+21`), are not represented. The source reads the text
  of the number input, and its subtraction is also inexact above 2^53.
  JavaScript coerces it in the comparison and subtraction, and the raw text goes into
  the URL when the category has no built-in questions.
- Catalog.QueryUrlCategory: proved only when the category and difficulty identifiers
  contain no '&'. The option values of the form have none. A value containing
  `&category=` would otherwise make the text test ambiguous.
- Catalog.QueryUrlDifficulty: the same '&'-free restriction on the identifiers.
- Session.QuizSession.Select: requires the clicked index to be one of the question's
  answer buttons, which are the only way the source sets it.
