/**
 * The roadmap agent: ask the tool-using agent for a twelve-week roadmap as a
 * JSON array of `{week, tasks}` records, retrying up to three times, and fall
 * back to no weeks at all. Unlike the other two agents, its bare search is the
 * greedy `\[.*\]`.
 */
module RoadmapGenerator {
  import opened Wrappers
  import opened JsonModel
  import opened Extraction
  import opened Retry

  /** A week record carries a `week` and a `tasks` entry, and `tasks` is a list; the tasks are not looked at. */
  const WeekSchema: Schema := Schema({"week", "tasks"}, {"tasks"})

  /**
   * `_extract_and_parse_json`: the week records of a reply, found through a
   * fenced block or else the span from the first `[` to the last `]`.
   */
  function ExtractWeeks(text: string, parse: string -> Option<Json>): (r: Option<seq<Json>>)
    ensures r.Some? ==> forall i :: 0 <= i < |r.value| ==>
              && r.value[i].JObj? && "week" in r.value[i].fields
              && "tasks" in r.value[i].fields && r.value[i].fields["tasks"].JArr?
    ensures r.Some? <==> Candidate(text, AnyBracketsPattern).Some?
                         && parse(Candidate(text, AnyBracketsPattern).value).Some?
                         && Validates(parse(Candidate(text, AnyBracketsPattern).value).value, WeekSchema)
  {
    // the source also tests the candidate for truthiness; a candidate always starts with `[` (CandidateNonEmpty)
    Extract(text, parse, AnyBracketsPattern, WeekSchema)
  }

  /** A candidate that parses to the empty list is accepted: an empty list has no element to reject. */
  lemma EmptyListAccepted(text: string, parse: string -> Option<Json>)
    requires Candidate(text, AnyBracketsPattern).Some?
    requires parse(Candidate(text, AnyBracketsPattern).value) == Some(JArr([]))
    ensures ExtractWeeks(text, parse) == Some([])
  {
  }

  /** One attempt of `generate_roadmap`: an exception, a missing or empty "output" or an unusable reply is a failure. */
  function RoadmapStep(parse: string -> Option<Json>): AgentReply -> Option<seq<Json>> {
    (reply: AgentReply) =>
      match reply
      case AgentRaised => None
      case AgentResponse(None) => None
      case AgentResponse(Some(output)) => if output == "" then None else ExtractWeeks(output, parse)
  }

  /** What `generate_roadmap` returns: the first accepted reply's weeks, else the empty list. */
  function GeneratedWeeks(replies: seq<AgentReply>, parse: string -> Option<Json>): (ws: seq<Json>)
    requires MaxRetries <= |replies|
    ensures Validates(JArr(ws), WeekSchema)
    ensures Run(replies, RoadmapStep(parse)).0.Some? ==>
              var reply := replies[Run(replies, RoadmapStep(parse)).1 - 1];
              reply.AgentResponse? && reply.output.Some? && reply.output.value != ""
              && Some(ws) == ExtractWeeks(reply.output.value, parse)
    ensures Run(replies, RoadmapStep(parse)).0.None? ==> ws == []
  {
    Run(replies, RoadmapStep(parse)).0.GetOr([])
  }

  /** A first reply whose candidate parses to `[]` ends the loop at once with no weeks, after one call and no sleep. */
  lemma EmptyRoadmapReturnedAtOnce(replies: seq<AgentReply>, parse: string -> Option<Json>)
    requires MaxRetries <= |replies|
    requires replies[0].AgentResponse? && replies[0].output.Some?
    requires Candidate(replies[0].output.value, AnyBracketsPattern).Some?
    requires parse(Candidate(replies[0].output.value, AnyBracketsPattern).value) == Some(JArr([]))
    ensures Run(replies, RoadmapStep(parse)) == (Some([]), 1)
    ensures GeneratedWeeks(replies, parse) == []
    ensures Failures(Run(replies, RoadmapStep(parse))) == 0
  {
    CandidateNonEmpty(replies[0].output.value, AnyBracketsPattern);
    EmptyListAccepted(replies[0].output.value, parse);
    FirstAcceptedWins(replies, RoadmapStep(parse));
  }

  /**
   * `generate_roadmap`: at most three agent calls, the first usable reply
   * returned at once, a sleep after every failure, and `[]` after three.
   */
  method GenerateRoadmap(replies: seq<AgentReply>, parse: string -> Option<Json>)
    returns (weeks: seq<Json>, calls: nat, delays: seq<nat>)
    requires MaxRetries <= |replies|
    ensures weeks == GeneratedWeeks(replies, parse)
    ensures calls == Run(replies, RoadmapStep(parse)).1
    ensures 1 <= calls <= MaxRetries
    ensures delays == BackoffSchedule(Failures(Run(replies, RoadmapStep(parse))))
  {
    var result;
    result, calls, delays := RetryLoop(replies, RoadmapStep(parse));
    weeks := if result.Some? then result.value else [];
  }
}
