/**
 * The quiz page: one answer slot per received question, edited one slot at a
 * time, refused on submission while the session or an answer is missing, and
 * sent as question/answer pairs whose reply decides whether the page moves on.
 */
module QuizPage {
  import opened Wrappers
  import opened Text
  import LevelDetector

  /** A question as the page receives it in its navigation state. */
  datatype Question = Question(id: int, question: string)

  /** The navigation state the page is opened with; absent parts are None. */
  datatype LocationState = LocationState(questions: Option<seq<Question>>, quizId: Option<string>)

  /** The page's questions and the answers typed so far. */
  datatype Quiz = Quiz(questions: seq<Question>, answers: seq<string>)

  /** An entry of the submitted payload; a None answer is `undefined`, an index past the answers. */
  datatype AnswerEntry = AnswerEntry(question: string, answer: Option<string>)

  /** The body of a successful submission. */
  datatype QuizResponse = QuizResponse(level: Option<string>, nextStep: Option<string>)

  const NoSession := "Session not found. Please start from the Domain Selection."
  const Unanswered := "Please answer all questions before submitting."
  const NoLevel := "Quiz submission failed or level not determined."
  const SubmitFailed := "Failed to submit quiz. Please try again. "
  const NextStep := "career-track-recommendation"

  /** Each question has exactly one answer slot. */
  predicate Aligned(q: Quiz) {
    |q.answers| == |q.questions|
  }

  /**
   * The page's effect on opening: with questions and a quiz id in the state,
   * those questions and one empty answer each; otherwise the quiz is kept.
   */
  function Opened(location: Option<LocationState>, q: Quiz): (r: Quiz)
    ensures location.Some? && location.value.questions.Some? && !Falsy(location.value.quizId) ==>
              r.questions == location.value.questions.value
              && |r.answers| == |r.questions| && forall i :: 0 <= i < |r.answers| ==> r.answers[i] == ""
    ensures !(location.Some? && location.value.questions.Some? && !Falsy(location.value.quizId)) ==> r == q
    ensures Aligned(q) ==> Aligned(r)
  {
    if location.Some? && location.value.questions.Some? && !Falsy(location.value.quizId) then
      var qs := location.value.questions.value;
      Quiz(qs, seq(|qs|, _ => ""))
    else q
  }

  /** `handleAnswerChange`: a copy of the answers with slot `index` set to `value`. */
  method AnswerChange(answers: seq<string>, index: nat, value: string) returns (next: seq<string>)
    requires index < |answers|
    ensures |next| == |answers| && next[index] == value
    ensures forall j :: 0 <= j < |answers| && j != index ==> next[j] == answers[j]
  {
    var copy := new string[|answers|](i requires 0 <= i < |answers| => answers[i]);
    copy[index] := value;
    next := copy[..];
  }

  /** Some answer is empty once surrounding whitespace is trimmed. */
  predicate HasBlank(answers: seq<string>) {
    exists i :: 0 <= i < |answers| && Trim(answers[i], IsJsSpace) == ""
  }

  /** The payload: one entry per question, in order, paired with the answer at the same index. */
  function Payload(q: Quiz): (p: seq<AnswerEntry>)
    ensures |p| == |q.questions|
    ensures forall i :: 0 <= i < |p| ==> p[i].question == q.questions[i].question
    ensures forall i :: 0 <= i < |p| ==> (p[i].answer.Some? <==> i < |q.answers|)
    ensures forall i :: 0 <= i < |p| && i < |q.answers| ==> p[i].answer == Some(q.answers[i])
  {
    seq(|q.questions|, i requires 0 <= i < |q.questions| =>
      AnswerEntry(q.questions[i].question, if i < |q.answers| then Some(q.answers[i]) else None))
  }

  /** What pressing submit leads to: an error shown and nothing sent, or the payload sent. */
  datatype Submission = Refused(error: string) | Sent(payload: seq<AnswerEntry>)

  /** `handleSubmitQuiz` up to the request: the session guard first, then the blank-answer guard. */
  function SubmitQuiz(sessionId: Option<string>, q: Quiz): (r: Submission)
    ensures Falsy(sessionId) ==> r == Refused(NoSession)
    ensures !Falsy(sessionId) && HasBlank(q.answers) ==> r == Refused(Unanswered)
    ensures r.Sent? <==> !Falsy(sessionId) && !HasBlank(q.answers)
    ensures r.Sent? ==> r.payload == Payload(q)
  {
    if Falsy(sessionId) then Refused(NoSession)
    else if HasBlank(q.answers) then Refused(Unanswered)
    else Sent(Payload(q))
  }

  /** Every answer sent from an aligned quiz is present and holds a non-whitespace character. */
  lemma SentAnswersFilled(sessionId: Option<string>, q: Quiz)
    requires Aligned(q)
    requires SubmitQuiz(sessionId, q).Sent?
    ensures var p := SubmitQuiz(sessionId, q).payload;
            forall i :: 0 <= i < |p| ==> p[i].answer == Some(q.answers[i]) && !AllBy(q.answers[i], IsJsSpace)
  {
    forall i | 0 <= i < |q.answers| ensures !AllBy(q.answers[i], IsJsSpace) {
      TrimEmptyIffBlank(q.answers[i], IsJsSpace);
    }
  }

  /** A freshly opened quiz with at least one question cannot be submitted before it is answered. */
  lemma FreshQuizRefused(sessionId: Option<string>, location: LocationState, q: Quiz)
    requires location.questions.Some? && |location.questions.value| > 0 && !Falsy(location.quizId)
    ensures SubmitQuiz(sessionId, Opened(Some(location), q)).Refused?
  {
    var started := Opened(Some(location), q);
    assert Trim(started.answers[0], IsJsSpace) == "";
  }

  /** Where the page goes once the request settles. */
  datatype Settled = Navigate(level: string) | ShowError(message: string)

  /** The reply handling: navigate only with a level and the expected next step. */
  function SettleSubmission(reply: ApiReply<QuizResponse>): (r: Settled)
    ensures r.Navigate? <==> reply.Answered? && !Falsy(reply.body.level) && reply.body.nextStep == Some(NextStep)
    ensures r.Navigate? ==> reply.body.level == Some(r.level)
    ensures reply.Answered? && r.ShowError? ==> r.message == NoLevel
    ensures reply.Failed? ==> r == ShowError(SubmitFailed + reply.message)
  {
    match reply
    case Answered(body) =>
      if !Falsy(body.level) && body.nextStep == Some(NextStep) then Navigate(body.level.value) else ShowError(NoLevel)
    case Failed(message) => ShowError(SubmitFailed + message)
  }

  /** The backend's answer, a detected level with the recommendation step, always moves the page on. */
  lemma DetectedLevelNavigates(level: string)
    requires level in LevelDetector.Levels
    ensures SettleSubmission(Answered(QuizResponse(Some(level), Some(NextStep)))) == Navigate(level)
  {
  }
}
