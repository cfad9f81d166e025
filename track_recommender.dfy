/**
 * The career-track agent: ask the tool-using agent for two or three career
 * roles as a JSON array of records with at least a `title`, retrying up to
 * three times, and fall back to no tracks at all.
 */
module TrackRecommender {
  import opened Wrappers
  import opened JsonModel
  import opened Patterns
  import opened Extraction
  import opened Retry

  /** A track record must carry a `title`; its other fields are not looked at. */
  const TrackSchema: Schema := Schema({"title"}, {})

  /**
   * `_extract_and_parse_json`: the track records of a reply, found through a
   * fenced block or else the first bare array of objects.
   */
  function ExtractTracks(text: string, parse: string -> Option<Json>): (r: Option<seq<Json>>)
    ensures r.Some? ==> forall i :: 0 <= i < |r.value| ==> r.value[i].JObj? && "title" in r.value[i].fields
    ensures r.Some? <==> Candidate(text, ObjectArrayPattern).Some?
                         && parse(Candidate(text, ObjectArrayPattern).value).Some?
                         && Validates(parse(Candidate(text, ObjectArrayPattern).value).value, TrackSchema)
  {
    Extract(text, parse, ObjectArrayPattern, TrackSchema)
  }

  /** Without a fenced block, only a `[` followed (after blanks) by `{` can start the candidate. */
  lemma BareCandidateOpensAnObject(text: string)
    requires FenceGroup(text).None? && Candidate(text, ObjectArrayPattern).Some?
    ensures var c := Candidate(text, ObjectArrayPattern).value;
            exists j :: 0 < j < |c| && c[0] == '[' && c[j] == '{' && forall k :: 0 < k < j ==> Text.IsSpace(c[k])
  {
    var (s, e) := ArrayFrom(text, 0).value;
    assert Candidate(text, ObjectArrayPattern).value == text[s..e];
    MatchOpensAnObject(text, s, e);
  }

  /** An object-array match spanning `s` to `e` opens with `[`, blanks and `{`. */
  lemma MatchOpensAnObject(text: string, s: nat, e: nat)
    requires s <= |text| && ArrayAt(text, s) == Some(e)
    ensures var c := text[s..e];
            exists j :: 0 < j < |c| && c[0] == '[' && c[j] == '{' && forall k :: 0 < k < j ==> Text.IsSpace(c[k])
  {
    var j := Text.SkipWs(text, s + 1) - s;
    var c := text[s..e];
    assert c[0] == '[' && c[j] == '{';
    assert forall k :: 0 < k < j ==> c[k] == text[s + k];
  }

  /** One attempt of `recommend_tracks`: an exception, a missing "output" or an unusable reply is a failure. */
  function TrackStep(parse: string -> Option<Json>): AgentReply -> Option<seq<Json>> {
    (reply: AgentReply) =>
      match reply
      case AgentRaised => None
      case AgentResponse(None) => None
      case AgentResponse(Some(output)) => ExtractTracks(output, parse)
  }

  /** What `recommend_tracks` returns: the first accepted reply's records, else the empty list. */
  function RecommendedTracks(replies: seq<AgentReply>, parse: string -> Option<Json>): (ts: seq<Json>)
    requires MaxRetries <= |replies|
    ensures Validates(JArr(ts), TrackSchema)
    ensures Run(replies, TrackStep(parse)).0.Some? ==>
              var reply := replies[Run(replies, TrackStep(parse)).1 - 1];
              reply.AgentResponse? && reply.output.Some? && Some(ts) == ExtractTracks(reply.output.value, parse)
    ensures Run(replies, TrackStep(parse)).0.None? ==> ts == []
  {
    Run(replies, TrackStep(parse)).0.GetOr([])
  }

  /** Responses that never carry "output" are three failures, with the full backoff, and give no tracks. */
  lemma MissingOutputGivesNothing(parse: string -> Option<Json>)
    ensures var replies := [AgentResponse(None), AgentResponse(None), AgentResponse(None)];
            && RecommendedTracks(replies, parse) == []
            && Run(replies, TrackStep(parse)).1 == MaxRetries
            && BackoffSchedule(Failures(Run(replies, TrackStep(parse)))) == [2, 4, 6]
  {
    var replies := [AgentResponse(None), AgentResponse(None), AgentResponse(None)];
    ExhaustedIffAllFail(replies, TrackStep(parse));
    BackoffIncreasing(MaxRetries);
  }

  /**
   * `recommend_tracks`: at most three agent calls, the first usable reply
   * returned at once, a sleep after every failure, and `[]` after three.
   */
  method RecommendTracks(replies: seq<AgentReply>, parse: string -> Option<Json>)
    returns (tracks: seq<Json>, calls: nat, delays: seq<nat>)
    requires MaxRetries <= |replies|
    ensures tracks == RecommendedTracks(replies, parse)
    ensures calls == Run(replies, TrackStep(parse)).1
    ensures 1 <= calls <= MaxRetries
    ensures delays == BackoffSchedule(Failures(Run(replies, TrackStep(parse))))
  {
    var result;
    result, calls, delays := RetryLoop(replies, TrackStep(parse));
    tracks := if result.Some? then result.value else [];
  }
}
