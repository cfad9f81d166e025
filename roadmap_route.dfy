/**
 * `get_roadmap`: the roadmap of a career track, read from the store when one
 * exists, else generated by the roadmap agent, converted to task records that
 * all start incomplete, and stored. The store is abstracted away: the route
 * takes what the three lookups return and gives back, besides the response,
 * the weeks it inserts (None when it inserts nothing).
 */
module RoadmapRoute {
  import opened Wrappers
  import opened JsonModel
  import opened Records
  import opened Retry
  import opened RoadmapGenerator

  const TrackNotFound: HttpError := HttpError(404, "Career track not found.")
  const SessionNotFound: HttpError := HttpError(404, "Session not found for this track.")
  const LevelMissing: HttpError := HttpError(400, "User level not yet determined. Complete the quiz first.")
  const EmptyRoadmap: HttpError := HttpError(500, "Failed to generate roadmap. Agent returned empty list or invalid format.")
  /** What the server answers when a generated entry cannot be turned into a task or week record. */
  const MalformedRoadmap: HttpError := HttpError(500, "Internal Server Error")

  /** The session a track belongs to: its domain, and its level once the quiz is done. */
  datatype Session = Session(domain: string, level: Option<string>)

  /** `not session_doc.get("level")`: no level, or an empty one. */
  predicate LevelMissingIn(s: Session) {
    Falsy(s.level)
  }

  /** A generated link: a null or absent one stays None, anything else becomes its string form. */
  function ConvertLink(item: Json): (link: Option<string>)
    requires item.JObj?
    ensures link.None? <==> Get(item, "resourceLink") == JNull
    ensures link.Some? ==> link.value == PyStr(Get(item, "resourceLink"))
  {
    if Get(item, "resourceLink") == JNull then None else Some(PyStr(Get(item, "resourceLink")))
  }

  /**
   * One generated task as a `RoadmapTask`, starting incomplete; None when the
   * entry is not an object or its `task` is not a string (the route then fails).
   */
  function ConvertTask(item: Json): (r: Option<RoadmapTask>)
    ensures r.Some? <==> item.JObj? && Get(item, "task").JStr?
    ensures r.Some? ==> r.value == RoadmapTask(Get(item, "task").s, false, ConvertLink(item))
  {
    if item.JObj? && Get(item, "task").JStr? then Some(RoadmapTask(Get(item, "task").s, false, ConvertLink(item)))
    else None
  }

  /** All tasks of a generated week, in order, or None as soon as one cannot be converted. */
  function ConvertTasks(items: seq<Json>): (r: Option<seq<RoadmapTask>>)
    ensures r.Some? ==> |r.value| == |items| && forall i :: 0 <= i < |items| ==> ConvertTask(items[i]) == Some(r.value[i])
    ensures r.None? <==> exists i :: 0 <= i < |items| && ConvertTask(items[i]).None?
    decreases |items|
  {
    if |items| == 0 then Some([])
    else
      var front := ConvertTasks(items[..|items| - 1]);
      var last := ConvertTask(items[|items| - 1]);
      if front.Some? && last.Some? then
        Some(front.value + [last.value])
      else None
  }

  /** One generated week: its number must be an integer, and all its tasks must convert. */
  function ConvertWeek(w: Json): (r: Option<RoadmapWeek>)
    requires Conforms(w, WeekSchema)
    ensures r.Some? <==> Get(w, "week").JInt? && ConvertTasks(Get(w, "tasks").items).Some?
    ensures r.Some? ==> r.value.week == Get(w, "week").i && Some(r.value.tasks) == ConvertTasks(Get(w, "tasks").items)
  {
    var tasks := ConvertTasks(w.fields["tasks"].items);
    if Get(w, "week").JInt? && tasks.Some? then Some(RoadmapWeek(Get(w, "week").i, tasks.value)) else None
  }

  /** All generated weeks, in order, or None as soon as one cannot be converted. */
  function ConvertWeeks(ws: seq<Json>): (r: Option<seq<RoadmapWeek>>)
    requires Validates(JArr(ws), WeekSchema)
    ensures r.Some? ==> |r.value| == |ws| && forall i :: 0 <= i < |ws| ==> ConvertWeek(ws[i]) == Some(r.value[i])
    ensures r.None? <==> exists i :: 0 <= i < |ws| && ConvertWeek(ws[i]).None?
    decreases |ws|
  {
    if |ws| == 0 then Some([])
    else
      var front := ConvertWeeks(ws[..|ws| - 1]);
      var last := ConvertWeek(ws[|ws| - 1]);
      if front.Some? && last.Some? then
        Some(front.value + [last.value])
      else None
  }

  /** The inner conversion loop of the route: the tasks of one generated week, appended in order. */
  method ConvertGeneratedTasks(items: seq<Json>) returns (tasks: Option<seq<RoadmapTask>>)
    ensures tasks == ConvertTasks(items)
  {
    var tasksWithStatus: seq<RoadmapTask> := [];
    var j := 0;
    while j < |items|
      invariant 0 <= j <= |items|
      invariant ConvertTasks(items[..j]) == Some(tasksWithStatus)
    {
      var item := items[j];
      if !(item.JObj? && Get(item, "task").JStr?) {
        assert ConvertTask(items[j]).None?;
        return None;
      }
      var link: Option<string> := None;
      if Get(item, "resourceLink") != JNull {
        link := Some(PyStr(Get(item, "resourceLink")));
      }
      tasksWithStatus := tasksWithStatus + [RoadmapTask(Get(item, "task").s, false, link)];
      assert items[..j + 1][..j] == items[..j];
      j := j + 1;
    }
    assert items[..j] == items;
    return Some(tasksWithStatus);
  }

  /** The conversion loop of the route: week by week, each week's tasks converted, appending as it goes. */
  method ConvertGenerated(generated: seq<Json>) returns (weeks: Option<seq<RoadmapWeek>>)
    requires Validates(JArr(generated), WeekSchema)
    ensures weeks == ConvertWeeks(generated)
  {
    var roadmapWeeks: seq<RoadmapWeek> := [];
    var i := 0;
    while i < |generated|
      invariant 0 <= i <= |generated|
      invariant ConvertWeeks(generated[..i]) == Some(roadmapWeeks)
    {
      var weekData := generated[i];
      var tasksWithStatus := ConvertGeneratedTasks(weekData.fields["tasks"].items);
      if tasksWithStatus.None? || !Get(weekData, "week").JInt? {
        assert ConvertWeek(generated[i]).None?;
        return None;
      }
      roadmapWeeks := roadmapWeeks + [RoadmapWeek(Get(weekData, "week").i, tasksWithStatus.value)];
      assert generated[..i + 1][..i] == generated[..i];
      i := i + 1;
    }
    assert generated[..i] == generated;
    return Some(roadmapWeeks);
  }

  /** The response, the number of agent calls and the inserted weeks of `get_roadmap`. */
  function RoadmapOutcome(trackFound: bool, session: Option<Session>, existing: Option<seq<StoredWeek>>,
                          replies: seq<AgentReply>, parse: string -> Option<Json>): (Result<seq<RoadmapWeek>>, nat, Option<seq<StoredWeek>>)
    requires MaxRetries <= |replies|
  {
    if !trackFound then (Err(TrackNotFound), 0, None)
    else if session.None? then (Err(SessionNotFound), 0, None)
    else if LevelMissingIn(session.value) then (Err(LevelMissing), 0, None)
    else if existing.Some? then (Ok(NormalizeWeeks(existing.value)), 0, None)
    else
      var calls := Run(replies, RoadmapStep(parse)).1;
      var generated := GeneratedWeeks(replies, parse);
      if generated == [] then (Err(EmptyRoadmap), calls, None)
      else
        match ConvertWeeks(generated)
        case None => (Err(MalformedRoadmap), calls, None)
        case Some(weeks) => (Ok(weeks), calls, Some(StoreWeeks(weeks)))
  }

  /**
   * `get_roadmap`: the guards in order (track, session, level), then the stored
   * roadmap if there is one, else generation, conversion and insertion.
   */
  method GetRoadmap(trackFound: bool, session: Option<Session>, existing: Option<seq<StoredWeek>>,
                    replies: seq<AgentReply>, parse: string -> Option<Json>)
    returns (resp: Result<seq<RoadmapWeek>>, calls: nat, inserted: Option<seq<StoredWeek>>)
    requires MaxRetries <= |replies|
    ensures (resp, calls, inserted) == RoadmapOutcome(trackFound, session, existing, replies, parse)
  {
    if !trackFound {
      return Err(TrackNotFound), 0, None;
    }
    if session.None? {
      return Err(SessionNotFound), 0, None;
    }
    if LevelMissingIn(session.value) {
      return Err(LevelMissing), 0, None;
    }
    if existing.Some? {
      var stored := existing.value;
      var roadmapWeeks: seq<RoadmapWeek> := [];
      var i := 0;
      while i < |stored|
        invariant 0 <= i <= |stored|
        invariant roadmapWeeks == NormalizeWeeks(stored[..i])
      {
        roadmapWeeks := roadmapWeeks + [RoadmapWeek(stored[i].week, NormalizeTasks(stored[i].tasks))];
        i := i + 1;
      }
      assert stored[..i] == stored;
      return Ok(roadmapWeeks), 0, None;
    }
    var generated, delays;
    generated, calls, delays := GenerateRoadmap(replies, parse);
    if generated == [] {
      return Err(EmptyRoadmap), calls, None;
    }
    var weeks := ConvertGenerated(generated);
    if weeks.None? {
      return Err(MalformedRoadmap), calls, None;
    }
    resp := Ok(weeks.value);
    inserted := Some(StoreWeeks(weeks.value));
  }

  // ---------------------------------------------------------------------------
  // What the route promises

  /** A session without a level is refused with 400 before the agent is called, and nothing is stored. */
  lemma LevelGuardFirst(session: Session, existing: Option<seq<StoredWeek>>, replies: seq<AgentReply>, parse: string -> Option<Json>)
    requires MaxRetries <= |replies| && LevelMissingIn(session)
    ensures RoadmapOutcome(true, Some(session), existing, replies, parse) == (Err(LevelMissing), 0, None)
  {
  }

  /** A stored roadmap is returned without calling the agent, each absent status read as false. */
  lemma ExistingRoadmapServed(session: Session, stored: seq<StoredWeek>, replies: seq<AgentReply>, parse: string -> Option<Json>)
    requires MaxRetries <= |replies| && !LevelMissingIn(session)
    ensures var (resp, calls, inserted) := RoadmapOutcome(true, Some(session), Some(stored), replies, parse);
            && calls == 0 && inserted.None? && resp.Ok? && |resp.value| == |stored|
            && forall i, j :: 0 <= i < |stored| && 0 <= j < |stored[i].tasks| ==>
                 (resp.value[i].tasks[j].isCompleted <==> stored[i].tasks[j].isCompleted == Some(true))
  {
    var resp := RoadmapOutcome(true, Some(session), Some(stored), replies, parse).0;
    forall i, j | 0 <= i < |stored| && 0 <= j < |stored[i].tasks|
      ensures resp.value[i].tasks[j].isCompleted <==> stored[i].tasks[j].isCompleted == Some(true)
    {
      assert resp.value[i] == NormalizeWeek(stored[i]);
      assert resp.value[i].tasks[j] == NormalizeTask(stored[i].tasks[j]);
    }
  }

  /** An agent that comes back with no weeks is a 500 error, and nothing is stored. */
  lemma EmptyGenerationFails(session: Session, replies: seq<AgentReply>, parse: string -> Option<Json>)
    requires MaxRetries <= |replies| && !LevelMissingIn(session)
    requires GeneratedWeeks(replies, parse) == []
    ensures var (resp, _, inserted) := RoadmapOutcome(true, Some(session), None, replies, parse);
            resp == Err(EmptyRoadmap) && inserted.None?
  {
  }

  /**
   * A generated roadmap keeps the agent's week numbers, week order and task
   * counts and task texts; every task starts incomplete; a null link stays
   * None and any other link becomes its string form; and exactly the returned
   * weeks are stored.
   */
  lemma GeneratedRoadmapShape(session: Session, replies: seq<AgentReply>, parse: string -> Option<Json>)
    requires MaxRetries <= |replies| && !LevelMissingIn(session)
    requires RoadmapOutcome(true, Some(session), None, replies, parse).0.Ok?
    ensures var (resp, _, inserted) := RoadmapOutcome(true, Some(session), None, replies, parse);
            var gen := GeneratedWeeks(replies, parse);
            var ws := resp.value;
            && inserted == Some(StoreWeeks(ws))
            && |ws| == |gen| > 0
            && forall i :: 0 <= i < |gen| ==>
                 && Get(gen[i], "week") == JInt(ws[i].week)
                 && |ws[i].tasks| == |gen[i].fields["tasks"].items|
                 && forall j :: 0 <= j < |ws[i].tasks| ==>
                      var item := gen[i].fields["tasks"].items[j];
                      && !ws[i].tasks[j].isCompleted
                      && item.JObj? && Get(item, "task") == JStr(ws[i].tasks[j].task)
                      && (ws[i].tasks[j].resourceLink.None? <==> Get(item, "resourceLink") == JNull)
                      && (ws[i].tasks[j].resourceLink.Some? ==> ws[i].tasks[j].resourceLink.value == PyStr(Get(item, "resourceLink")))
  {
    var gen := GeneratedWeeks(replies, parse);
    var ws := ConvertWeeks(gen).value;
    forall i | 0 <= i < |gen|
      ensures Get(gen[i], "week") == JInt(ws[i].week)
      ensures |ws[i].tasks| == |gen[i].fields["tasks"].items|
      ensures forall j :: 0 <= j < |ws[i].tasks| ==>
                var item := gen[i].fields["tasks"].items[j];
                && !ws[i].tasks[j].isCompleted
                && item.JObj? && Get(item, "task") == JStr(ws[i].tasks[j].task)
                && (ws[i].tasks[j].resourceLink.None? <==> Get(item, "resourceLink") == JNull)
                && (ws[i].tasks[j].resourceLink.Some? ==> ws[i].tasks[j].resourceLink.value == PyStr(Get(item, "resourceLink")))
    {
      assert ConvertWeek(gen[i]) == Some(ws[i]);
      var items := gen[i].fields["tasks"].items;
      forall j | 0 <= j < |ws[i].tasks|
        ensures ConvertTask(items[j]) == Some(ws[i].tasks[j])
      {
      }
    }
  }

  /** Asking again once a roadmap was generated and stored serves the same weeks, with no agent call. */
  lemma SecondRequestServesStored(session: Session, replies: seq<AgentReply>, parse: string -> Option<Json>)
    requires MaxRetries <= |replies| && !LevelMissingIn(session)
    requires RoadmapOutcome(true, Some(session), None, replies, parse).0.Ok?
    ensures var (resp, _, inserted) := RoadmapOutcome(true, Some(session), None, replies, parse);
            RoadmapOutcome(true, Some(session), inserted, replies, parse) == (resp, 0, None)
  {
    var (resp, _, inserted) := RoadmapOutcome(true, Some(session), None, replies, parse);
    StoreRoundTrip(resp.value);
  }
}
