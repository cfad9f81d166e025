/**
 * The strategy-question agent: ask the model for ten assessment questions as
 * a JSON array of `{id, question}` records, retrying up to three times, and
 * fall back to ten placeholder questions.
 */
module StrategyQuestions {
  import opened Wrappers
  import opened Text
  import opened JsonModel
  import opened Extraction
  import opened Retry

  /** What one `chain.ainvoke` gives back: an exception, or the reply's text content. */
  datatype ChainReply = ChainRaised | Content(text: string)

  /** Every question record carries an `id` and a `question`. */
  const QuestionSchema: Schema := Schema({"id", "question"}, {})

  /**
   * `_extract_and_parse_json`: the question records of a reply, found through a
   * fenced block or else the first bare array of objects.
   */
  function ExtractQuestions(text: string, parse: string -> Option<Json>): (r: Option<seq<Json>>)
    ensures r.Some? ==> forall i :: 0 <= i < |r.value| ==> Conforms(r.value[i], QuestionSchema)
    ensures Candidate(text, ObjectArrayPattern).None? ==> r.None?
    ensures Candidate(text, ObjectArrayPattern).Some? && parse(Candidate(text, ObjectArrayPattern).value).None? ==> r.None?
    ensures r.Some? <==> Candidate(text, ObjectArrayPattern).Some?
                         && parse(Candidate(text, ObjectArrayPattern).value).Some?
                         && Validates(parse(Candidate(text, ObjectArrayPattern).value).value, QuestionSchema)
  {
    Extract(text, parse, ObjectArrayPattern, QuestionSchema)
  }

  /** One attempt of `generate_questions`: an exception or an unusable reply is a failure. */
  function QuestionStep(parse: string -> Option<Json>): ChainReply -> Option<seq<Json>> {
    (reply: ChainReply) =>
      match reply
      case ChainRaised => None
      case Content(text) => ExtractQuestions(text, parse)
  }

  /** The text of placeholder question `n`. */
  function FallbackText(n: nat, domain: string): string {
    "Error-fallback question " + NatToString(n) + " for " + domain
  }

  /** The ten placeholder questions used once every attempt has failed. */
  function FallbackQuestions(domain: string): (qs: seq<Json>)
    ensures |qs| == 10
    ensures Validates(JArr(qs), QuestionSchema)
    ensures forall i :: 0 <= i < 10 ==> qs[i].JObj? && qs[i].fields.Keys == {"id", "question"}
    ensures forall i :: 0 <= i < 10 ==> Get(qs[i], "id") == JInt(i + 1)
    ensures forall i :: 0 <= i < 10 ==> Get(qs[i], "question") == JStr(FallbackText(i + 1, domain))
  {
    seq(10, i requires 0 <= i < 10 =>
      JObj(map["id" := JInt(i + 1), "question" := JStr(FallbackText(i + 1, domain))]))
  }

  /** The placeholder questions carry ten distinct texts. */
  lemma FallbackTextsDistinct(domain: string, i: nat, j: nat)
    requires i < j < 10
    ensures Get(FallbackQuestions(domain)[i], "question") != Get(FallbackQuestions(domain)[j], "question")
  {
    var qs := FallbackQuestions(domain);
    var prefix := "Error-fallback question ";
    if FallbackText(i + 1, domain) == FallbackText(j + 1, domain) {
      var a, b := NatToString(i + 1), NatToString(j + 1);
      assert |a| == 1 && |b| == 1 by {
        assert i + 1 < 10 && j + 1 < 10;
      }
      assert FallbackText(i + 1, domain)[|prefix|] == a[0];
      assert FallbackText(j + 1, domain)[|prefix|] == b[0];
      assert a == b;
      NatToStringInjective(i + 1, j + 1);
    }
  }

  /** What `generate_questions` returns: the first accepted reply's records, else the placeholders. */
  function GeneratedQuestions(domain: string, replies: seq<ChainReply>, parse: string -> Option<Json>): (qs: seq<Json>)
    requires MaxRetries <= |replies|
    ensures Validates(JArr(qs), QuestionSchema)
    ensures Run(replies, QuestionStep(parse)).0.Some? ==>
              replies[Run(replies, QuestionStep(parse)).1 - 1].Content?
              && Some(qs) == ExtractQuestions(replies[Run(replies, QuestionStep(parse)).1 - 1].text, parse)
    ensures Run(replies, QuestionStep(parse)).0.None? ==> qs == FallbackQuestions(domain)
  {
    Run(replies, QuestionStep(parse)).0.GetOr(FallbackQuestions(domain))
  }

  /** Three raised exceptions never escape: the placeholders come back. */
  lemma ExceptionsGiveFallback(domain: string, parse: string -> Option<Json>)
    ensures GeneratedQuestions(domain, [ChainRaised, ChainRaised, ChainRaised], parse) == FallbackQuestions(domain)
  {
    ExhaustedIffAllFail([ChainRaised, ChainRaised, ChainRaised], QuestionStep(parse));
  }

  /**
   * `generate_questions`: at most three model calls, the first usable reply
   * returned at once, a sleep of 2, 4, 6 seconds after each failure, and the
   * placeholder questions after three failures.
   */
  method GenerateQuestions(domain: string, replies: seq<ChainReply>, parse: string -> Option<Json>)
    returns (questions: seq<Json>, calls: nat, delays: seq<nat>)
    requires MaxRetries <= |replies|
    ensures questions == GeneratedQuestions(domain, replies, parse)
    ensures calls == Run(replies, QuestionStep(parse)).1
    ensures 1 <= calls <= MaxRetries
    ensures delays == BackoffSchedule(Failures(Run(replies, QuestionStep(parse))))
  {
    var result;
    result, calls, delays := RetryLoop(replies, QuestionStep(parse));
    if result.Some? {
      return result.value, calls, delays;
    }
    questions := FallbackQuestions(domain);
  }
}
