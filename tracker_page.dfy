/**
 * The progress-tracker page: the task-update request it sends when a task is
 * ticked, and how it folds the week the backend returns into the session
 * data it holds.
 */
module TrackerPage {
  import opened Wrappers
  import opened Records
  import ProgressTracker

  /** A career track of the session summary; `roadmap` is None when it is null or absent. */
  datatype TrackView = TrackView(title: string, roadmap: Option<seq<RoadmapWeek>>)

  /** The session summary the page holds; every field but `careerTracks` passes through an update. */
  datatype SessionData = SessionData(sessionId: string, domain: string, level: Option<string>, careerTracks: seq<TrackView>)

  /** The part of the page's state a task update touches; a None session is the initial `null`. */
  datatype PageState = PageState(sessionData: Option<SessionData>, error: Option<string>)

  /** The roadmap of track 0, when there is a track 0 and its roadmap is an array (an empty one included). */
  function ActiveRoadmap(data: Option<SessionData>): Option<seq<RoadmapWeek>> {
    if data.Some? && |data.value.careerTracks| > 0 then data.value.careerTracks[0].roadmap else None
  }

  /**
   * The update request for a ticked task: the number of week `weekIndex` of
   * track 0, the task's text and link, and the negation of its current status.
   * None where reading the week number throws (no session data, no track 0, a
   * null roadmap, an index past its end).
   */
  function TaskPayload(data: Option<SessionData>, weekIndex: nat, currentTask: RoadmapTask, isCompleted: bool): (r: Option<TaskUpdate>)
    ensures r.Some? <==> ActiveRoadmap(data).Some? && weekIndex < |ActiveRoadmap(data).value|
    ensures r.Some? ==> r.value.week == ActiveRoadmap(data).value[weekIndex].week
    ensures r.Some? ==> r.value.task == currentTask.task && r.value.resourceLink == currentTask.resourceLink
    ensures r.Some? ==> r.value.status != isCompleted
  {
    match ActiveRoadmap(data)
    case Some(roadmap) =>
      if weekIndex < |roadmap| then Some(TaskUpdate(roadmap[weekIndex].week, currentTask.task, !isCompleted, currentTask.resourceLink))
      else None
    case None => None
  }

  /** `findIndex` by week number: the first position holding week `week`. */
  function FindWeek(roadmap: seq<RoadmapWeek>, week: int): (r: Option<nat>)
    ensures r.Some? ==> r.value < |roadmap| && roadmap[r.value].week == week
    ensures r.Some? ==> forall j :: 0 <= j < r.value ==> roadmap[j].week != week
    ensures r.None? <==> forall j :: 0 <= j < |roadmap| ==> roadmap[j].week != week
  {
    if |roadmap| == 0 then None
    else if roadmap[0].week == week then Some(0)
    else
      match FindWeek(roadmap[1..], week)
      case Some(j) => Some(j + 1)
      case None => None
  }

  /** The roadmap with its first week numbered like `updated` replaced by it. */
  function ReplaceWeek(roadmap: seq<RoadmapWeek>, updated: RoadmapWeek): (r: seq<RoadmapWeek>)
    ensures |r| == |roadmap|
    ensures FindWeek(roadmap, updated.week).None? ==> r == roadmap
    ensures FindWeek(roadmap, updated.week).Some? ==>
              var i := FindWeek(roadmap, updated.week).value;
              r[i] == updated && forall j :: 0 <= j < |roadmap| && j != i ==> r[j] == roadmap[j]
  {
    match FindWeek(roadmap, updated.week)
    case Some(i) => roadmap[i := updated]
    case None => roadmap
  }

  /** The `setSessionData` updater applied to the previous session data. */
  function UpdatedSession(prev: Option<SessionData>, updated: RoadmapWeek): (r: Option<SessionData>)
    ensures r.None? <==> prev.None?
    ensures r.Some? ==> r.value.(careerTracks := prev.value.careerTracks) == prev.value
    ensures r.Some? ==> |r.value.careerTracks| == |prev.value.careerTracks|
    ensures r.Some? ==> forall i :: 0 < i < |prev.value.careerTracks| ==> r.value.careerTracks[i] == prev.value.careerTracks[i]
    ensures r.Some? && |prev.value.careerTracks| > 0 ==> r.value.careerTracks[0].title == prev.value.careerTracks[0].title
    ensures ActiveRoadmap(prev).None? ==> r == prev
    ensures ActiveRoadmap(prev).Some? ==> ActiveRoadmap(r) == Some(ReplaceWeek(ActiveRoadmap(prev).value, updated))
  {
    match prev
    case None => None
    case Some(data) =>
      if |data.careerTracks| > 0 && data.careerTracks[0].roadmap.Some? then
        var track := data.careerTracks[0];
        Some(data.(careerTracks := data.careerTracks[0 := track.(roadmap := Some(ReplaceWeek(track.roadmap.value, updated)))]))
      else prev
  }

  /**
   * The updater as written: copy the track array, copy track 0's roadmap,
   * assign the matching week of the copy and then track 0 of the copy.
   */
  method UpdateSessionData(prev: Option<SessionData>, updated: RoadmapWeek) returns (next: Option<SessionData>)
    ensures next == UpdatedSession(prev, updated)
  {
    if prev.None? {
      return prev;
    }
    var data := prev.value;
    var tracks := new TrackView[|data.careerTracks|](i requires 0 <= i < |data.careerTracks| => data.careerTracks[i]);
    assert tracks[..] == data.careerTracks;
    if tracks.Length > 0 && tracks[0].roadmap.Some? {
      var weeks := tracks[0].roadmap.value;
      var roadmap := new RoadmapWeek[|weeks|](i requires 0 <= i < |weeks| => weeks[i]);
      assert roadmap[..] == weeks;
      var idx := FindWeek(roadmap[..], updated.week);
      if idx.Some? {
        roadmap[idx.value] := updated;
      }
      assert roadmap[..] == ReplaceWeek(weeks, updated);
      tracks[0] := tracks[0].(roadmap := Some(roadmap[..]));
      assert tracks[..] == data.careerTracks[0 := data.careerTracks[0].(roadmap := Some(ReplaceWeek(weeks, updated)))];
    }
    next := Some(data.(careerTracks := tracks[..]));
  }

  /** A returned week whose number matches none of track 0's weeks changes nothing. */
  lemma UnmatchedWeekChangesNothing(prev: Option<SessionData>, updated: RoadmapWeek)
    requires ActiveRoadmap(prev).Some?
    requires forall j :: 0 <= j < |ActiveRoadmap(prev).value| ==> ActiveRoadmap(prev).value[j].week != updated.week
    ensures UpdatedSession(prev, updated) == prev
  {
    var data := prev.value;
    assert data.careerTracks[0 := data.careerTracks[0]] == data.careerTracks;
  }

  /**
   * When track 0's week numbers are distinct, the week the backend returns for
   * the request built at `weekIndex` lands at `weekIndex`.
   */
  lemma UpdateLandsAtClickedWeek(data: Option<SessionData>, weekIndex: nat, currentTask: RoadmapTask, isCompleted: bool, updated: RoadmapWeek)
    requires TaskPayload(data, weekIndex, currentTask, isCompleted).Some?
    requires forall i, j :: 0 <= i < j < |ActiveRoadmap(data).value| ==> ActiveRoadmap(data).value[i].week != ActiveRoadmap(data).value[j].week
    requires updated.week == TaskPayload(data, weekIndex, currentTask, isCompleted).value.week
    ensures ActiveRoadmap(UpdatedSession(data, updated)) == Some(ActiveRoadmap(data).value[weekIndex := updated])
  {
    var roadmap := ActiveRoadmap(data).value;
    var i := FindWeek(roadmap, updated.week);
    assert i == Some(weekIndex);
  }

  /**
   * A request built from a page showing the stored roadmap names a stored
   * task, so the backend answers with the updated week rather than 404.
   */
  lemma PayloadNamesStoredTask(data: Option<SessionData>, stored: seq<StoredWeek>, weekIndex: nat, taskIndex: nat, isCompleted: bool)
    requires ActiveRoadmap(data) == Some(NormalizeWeeks(stored))
    requires weekIndex < |stored| && taskIndex < |stored[weekIndex].tasks|
    ensures var currentTask := NormalizeWeeks(stored)[weekIndex].tasks[taskIndex];
            var upd := TaskPayload(data, weekIndex, currentTask, isCompleted);
            upd.Some? && ProgressTracker.UpdateOutcome(Some(stored), upd.value).0.Ok?
  {
    var currentTask := NormalizeWeeks(stored)[weekIndex].tasks[taskIndex];
    var upd := TaskPayload(data, weekIndex, currentTask, isCompleted).value;
    assert ProgressTracker.Targets(stored, upd, weekIndex, taskIndex);
    ProgressTracker.NotFoundIffNoMatch(stored, upd);
  }

  /**
   * `handleTaskStatusChange`: the request sent, if any, and the page state once
   * the call settles. Without a session, or where building the request throws,
   * nothing is sent and nothing changes; a failed call sets only the error.
   */
  function HandleTaskStatusChange(state: PageState, sessionId: Option<string>, weekIndex: nat, currentTask: RoadmapTask,
                                  isCompleted: bool, reply: ApiReply<RoadmapWeek>): (r: (Option<TaskUpdate>, PageState))
    ensures Falsy(sessionId) ==> r.0.None?
    ensures !Falsy(sessionId) ==> r.0 == TaskPayload(state.sessionData, weekIndex, currentTask, isCompleted)
    ensures r.0.None? ==> r.1 == state
    ensures r.0.Some? && reply.Answered? ==> r.1 == PageState(UpdatedSession(state.sessionData, reply.body), state.error)
    ensures r.0.Some? && reply.Failed? ==> r.1.sessionData == state.sessionData
    ensures r.0.Some? && reply.Failed? ==> r.1.error == Some("Failed to update task. " + reply.message)
  {
    if Falsy(sessionId) then (None, state)
    else
      match TaskPayload(state.sessionData, weekIndex, currentTask, isCompleted)
      case None => (None, state)
      case Some(payload) =>
        match reply
        case Answered(week) => (Some(payload), state.(sessionData := UpdatedSession(state.sessionData, week)))
        case Failed(message) => (Some(payload), state.(error := Some("Failed to update task. " + message)))
  }
}
