/**
 * The roadmap records of the backend's data model: the task and week records
 * the API returns, the task-update request, and the shape in which weeks sit
 * in the roadmap store.
 */
module Records {
  import opened Wrappers

  /** `RoadmapTask`: `isCompleted` defaults to false and `resourceLink` to None. */
  datatype RoadmapTask = RoadmapTask(task: string, isCompleted: bool, resourceLink: Option<string>)

  /** `RoadmapWeek`: a week number and its tasks in order. */
  datatype RoadmapWeek = RoadmapWeek(week: int, tasks: seq<RoadmapTask>)

  /** `TaskUpdate`: which task of which week, its new status and its new link (None by default). */
  datatype TaskUpdate = TaskUpdate(week: int, task: string, status: bool, resourceLink: Option<string>)

  /**
   * A task as it sits in the store: `isCompleted` may be absent (None), and an
   * absent or null `resourceLink` reads back as None either way.
   */
  datatype StoredTask = StoredTask(task: string, isCompleted: Option<bool>, resourceLink: Option<string>)

  datatype StoredWeek = StoredWeek(week: int, tasks: seq<StoredTask>)

  /** Reading a stored task back as a `RoadmapTask`: an absent `isCompleted` means false. */
  function NormalizeTask(t: StoredTask): (r: RoadmapTask)
    ensures r.task == t.task && r.resourceLink == t.resourceLink
    ensures r.isCompleted <==> t.isCompleted == Some(true)
  {
    RoadmapTask(t.task, t.isCompleted.GetOr(false), t.resourceLink)
  }

  function NormalizeTasks(ts: seq<StoredTask>): (rs: seq<RoadmapTask>)
    ensures |rs| == |ts| && forall i :: 0 <= i < |ts| ==> rs[i] == NormalizeTask(ts[i])
  {
    seq(|ts|, i requires 0 <= i < |ts| => NormalizeTask(ts[i]))
  }

  /** Reading a stored week back: the same number, and its tasks read back one by one in order. */
  function NormalizeWeek(w: StoredWeek): (r: RoadmapWeek)
    ensures r.week == w.week && |r.tasks| == |w.tasks|
  {
    RoadmapWeek(w.week, NormalizeTasks(w.tasks))
  }

  function NormalizeWeeks(ws: seq<StoredWeek>): (rs: seq<RoadmapWeek>)
    ensures |rs| == |ws| && forall i :: 0 <= i < |ws| ==> rs[i] == NormalizeWeek(ws[i])
  {
    seq(|ws|, i requires 0 <= i < |ws| => NormalizeWeek(ws[i]))
  }

  /** `model_dump(exclude_none=True)` of a task: the status is always written, a None link is left out. */
  function StoreTask(t: RoadmapTask): StoredTask {
    StoredTask(t.task, Some(t.isCompleted), t.resourceLink)
  }

  function StoreWeek(w: RoadmapWeek): StoredWeek {
    StoredWeek(w.week, seq(|w.tasks|, i requires 0 <= i < |w.tasks| => StoreTask(w.tasks[i])))
  }

  function StoreWeeks(ws: seq<RoadmapWeek>): (ss: seq<StoredWeek>)
    ensures |ss| == |ws| && forall i :: 0 <= i < |ws| ==> ss[i] == StoreWeek(ws[i])
  {
    seq(|ws|, i requires 0 <= i < |ws| => StoreWeek(ws[i]))
  }

  /** Weeks written to the store read back unchanged. */
  lemma StoreRoundTrip(ws: seq<RoadmapWeek>)
    ensures NormalizeWeeks(StoreWeeks(ws)) == ws
  {
    forall i | 0 <= i < |ws| ensures NormalizeWeek(StoreWeek(ws[i])) == ws[i] {
      assert NormalizeTasks(StoreWeek(ws[i]).tasks) == ws[i].tasks;
    }
  }
}
