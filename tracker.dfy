/**
 * The progress-tracker routes. The roadmap store is abstracted away: each
 * route takes the weeks of the session's roadmap as the store returns them
 * (None when the session has no roadmap) and returns, besides its HTTP
 * response, the weeks it writes back (None when it writes nothing).
 */
module ProgressTracker {
  import opened Wrappers
  import opened Records

  const NoRoadmap: HttpError := HttpError(404, "No roadmap found for this session.")
  const NoTask: HttpError := HttpError(404, "Task or week not found in the roadmap.")

  /**
   * `get_progress_tracker`: the stored weeks, built up week by week and task by
   * task, each task read back as a `RoadmapTask`.
   */
  method GetProgressTracker(doc: Option<seq<StoredWeek>>) returns (r: Result<seq<RoadmapWeek>>)
    ensures doc.None? ==> r == Err(NoRoadmap)
    ensures doc.Some? ==> r == Ok(NormalizeWeeks(doc.value))
  {
    if doc.None? {
      return Err(NoRoadmap);
    }
    var stored := doc.value;
    var formatted: seq<RoadmapWeek> := [];
    var i := 0;
    while i < |stored|
      invariant 0 <= i <= |stored|
      invariant formatted == NormalizeWeeks(stored[..i])
    {
      var tasks: seq<RoadmapTask> := [];
      var j := 0;
      while j < |stored[i].tasks|
        invariant 0 <= j <= |stored[i].tasks|
        invariant tasks == NormalizeTasks(stored[i].tasks[..j])
      {
        var item := stored[i].tasks[j];
        tasks := tasks + [RoadmapTask(item.task, item.isCompleted.GetOr(false), item.resourceLink)];
        j := j + 1;
      }
      assert stored[i].tasks[..j] == stored[i].tasks;
      formatted := formatted + [RoadmapWeek(stored[i].week, tasks)];
      i := i + 1;
    }
    assert stored[..i] == stored;
    return Ok(formatted);
  }

  /** Reading the store never loses a week or a task, keeps their order and numbers, and reads an absent status as false. */
  lemma TrackerReadsBack(stored: seq<StoredWeek>, i: nat, j: nat)
    requires i < |stored| && j < |stored[i].tasks|
    ensures var w := NormalizeWeeks(stored)[i];
            && w.week == stored[i].week && |w.tasks| == |stored[i].tasks|
            && w.tasks[j].task == stored[i].tasks[j].task
            && w.tasks[j].resourceLink == stored[i].tasks[j].resourceLink
            && (stored[i].tasks[j].isCompleted.None? ==> !w.tasks[j].isCompleted)
            && (stored[i].tasks[j].isCompleted.Some? ==> w.tasks[j].isCompleted == stored[i].tasks[j].isCompleted.value)
  {
  }

  // ---------------------------------------------------------------------------
  // update_progress_tracker

  /** Task `ti` of week `wi` is the one the update names. */
  predicate Targets(weeks: seq<StoredWeek>, upd: TaskUpdate, wi: nat, ti: nat) {
    wi < |weeks| && ti < |weeks[wi].tasks| && weeks[wi].week == upd.week && weeks[wi].tasks[ti].task == upd.task
  }

  /** The first task of `tasks` at or after `from` whose text is `task`. */
  function TaskIndex(tasks: seq<StoredTask>, task: string, from: nat): (r: Option<nat>)
    requires from <= |tasks|
    ensures r.Some? ==> from <= r.value < |tasks| && tasks[r.value].task == task
    ensures r.Some? ==> forall k :: from <= k < r.value ==> tasks[k].task != task
    ensures r.None? ==> forall k :: from <= k < |tasks| ==> tasks[k].task != task
    decreases |tasks| - from
  {
    if from == |tasks| then None
    else if tasks[from].task == task then Some(from)
    else TaskIndex(tasks, task, from + 1)
  }

  /**
   * The task the update applies to, searching from week `wi` on: the first
   * week with the update's number that holds a task with the update's text,
   * and the first such task in it.
   */
  function LocateFrom(weeks: seq<StoredWeek>, upd: TaskUpdate, wi: nat): (r: Option<(nat, nat)>)
    requires wi <= |weeks|
    ensures r.Some? ==> wi <= r.value.0 && Targets(weeks, upd, r.value.0, r.value.1)
    ensures r.Some? ==> forall w, t :: wi <= w < r.value.0 ==> !Targets(weeks, upd, w, t)
    ensures r.Some? ==> forall t: nat :: t < r.value.1 ==> !Targets(weeks, upd, r.value.0, t)
    ensures r.None? ==> forall w, t :: wi <= w ==> !Targets(weeks, upd, w, t)
    decreases |weeks| - wi
  {
    if wi == |weeks| then None
    else if weeks[wi].week == upd.week && TaskIndex(weeks[wi].tasks, upd.task, 0).Some? then
      Some((wi, TaskIndex(weeks[wi].tasks, upd.task, 0).value))
    else LocateFrom(weeks, upd, wi + 1)
  }

  function Locate(weeks: seq<StoredWeek>, upd: TaskUpdate): Option<(nat, nat)> {
    LocateFrom(weeks, upd, 0)
  }

  /** The task after the update: the given status, and exactly the given link (None clears it). */
  function Apply(t: StoredTask, upd: TaskUpdate): StoredTask {
    t.(isCompleted := Some(upd.status), resourceLink := upd.resourceLink)
  }

  /** Whether the update changes anything on the task (an absent status always counts as a change). */
  predicate Changes(t: StoredTask, upd: TaskUpdate) {
    t.isCompleted != Some(upd.status) || t.resourceLink != upd.resourceLink
  }

  /** The weeks with task `ti` of week `wi` replaced by `t`. */
  function SetTask(weeks: seq<StoredWeek>, wi: nat, ti: nat, t: StoredTask): seq<StoredWeek>
    requires wi < |weeks| && ti < |weeks[wi].tasks|
  {
    weeks[wi := weeks[wi].(tasks := weeks[wi].tasks[ti := t])]
  }

  /** Setting a task and then setting it again is setting it once, to the second value. */
  lemma SetTaskAgain(weeks: seq<StoredWeek>, wi: nat, ti: nat, a: StoredTask, b: StoredTask)
    requires wi < |weeks| && ti < |weeks[wi].tasks|
    ensures SetTask(weeks, wi, ti, a)[wi].tasks[ti] == a
    ensures SetTask(SetTask(weeks, wi, ti, a), wi, ti, b) == SetTask(weeks, wi, ti, b)
  {
    assert SetTask(weeks, wi, ti, a)[wi].tasks[ti := b] == weeks[wi].tasks[ti := b];
  }

  /** Setting a task to what it already is changes nothing. */
  lemma SetTaskSame(weeks: seq<StoredWeek>, wi: nat, ti: nat)
    requires wi < |weeks| && ti < |weeks[wi].tasks|
    ensures SetTask(weeks, wi, ti, weeks[wi].tasks[ti]) == weeks
  {
    assert weeks[wi].tasks[ti := weeks[wi].tasks[ti]] == weeks[wi].tasks;
  }

  /** The response and the write of `update_progress_tracker`. */
  function UpdateOutcome(doc: Option<seq<StoredWeek>>, upd: TaskUpdate): (Result<RoadmapWeek>, Option<seq<StoredWeek>>) {
    if doc.None? then (Err(NoRoadmap), None)
    else
      match Locate(doc.value, upd)
      case None => (Err(NoTask), None)
      case Some((wi, ti)) =>
        var t := doc.value[wi].tasks[ti];
        var weeks := SetTask(doc.value, wi, ti, Apply(t, upd));
        (Ok(NormalizeWeek(weeks[wi])), if Changes(t, upd) then Some(weeks) else None)
  }

  /**
   * `update_progress_tracker`: walks the weeks and their tasks in order,
   * updates the first matching task in place, notes whether anything changed,
   * stops at that task, and writes the weeks back only if something changed.
   */
  method UpdateProgressTracker(doc: Option<seq<StoredWeek>>, upd: TaskUpdate)
    returns (resp: Result<RoadmapWeek>, written: Option<seq<StoredWeek>>)
    ensures (resp, written) == UpdateOutcome(doc, upd)
  {
    if doc.None? {
      return Err(NoRoadmap), None;
    }
    var weeks := doc.value;
    var found: Option<nat> := None;
    var updateNeeded := false;
    ghost var target: nat := 0;
    var wi := 0;
    while wi < |weeks|
      invariant 0 <= wi <= |weeks|
      invariant found.None?
      invariant weeks == doc.value && !updateNeeded
      invariant Locate(doc.value, upd) == LocateFrom(doc.value, upd, wi)
    {
      if weeks[wi].week == upd.week {
        var ti := 0;
        while ti < |weeks[wi].tasks|
          invariant 0 <= ti <= |weeks[wi].tasks|
          invariant found.None? && weeks == doc.value && !updateNeeded
          invariant TaskIndex(weeks[wi].tasks, upd.task, 0) == TaskIndex(weeks[wi].tasks, upd.task, ti)
        {
          var item := weeks[wi].tasks[ti];
          if item.task == upd.task {
            ghost var cur := item;
            SetTaskSame(doc.value, wi, ti);
            if item.isCompleted != Some(upd.status) {
              SetTaskAgain(doc.value, wi, ti, cur, cur.(isCompleted := Some(upd.status)));
              weeks := SetTask(weeks, wi, ti, weeks[wi].tasks[ti].(isCompleted := Some(upd.status)));
              cur := cur.(isCompleted := Some(upd.status));
              updateNeeded := true;
            }
            SetTaskAgain(doc.value, wi, ti, cur, cur);
            if upd.resourceLink.Some? && item.resourceLink != upd.resourceLink {
              SetTaskAgain(doc.value, wi, ti, cur, cur.(resourceLink := upd.resourceLink));
              weeks := SetTask(weeks, wi, ti, weeks[wi].tasks[ti].(resourceLink := upd.resourceLink));
              cur := cur.(resourceLink := upd.resourceLink);
              updateNeeded := true;
            } else if upd.resourceLink.None? && item.resourceLink.Some? {
              SetTaskAgain(doc.value, wi, ti, cur, cur.(resourceLink := None));
              weeks := SetTask(weeks, wi, ti, weeks[wi].tasks[ti].(resourceLink := None));
              cur := cur.(resourceLink := None);
              updateNeeded := true;
            }
            assert cur == Apply(item, upd);
            assert weeks == SetTask(doc.value, wi, ti, Apply(item, upd));
            assert updateNeeded == Changes(item, upd);
            found := Some(wi);
            target := ti;
            break;
          }
          ti := ti + 1;
        }
        if found.Some? {
          assert Locate(doc.value, upd) == Some((wi, target));
          break;
        }
      }
      wi := wi + 1;
    }
    if found.None? {
      return Err(NoTask), None;
    }
    var foundWeek := weeks[found.value];
    resp := Ok(NormalizeWeek(foundWeek));
    written := if updateNeeded then Some(weeks) else None;
  }

  // ---------------------------------------------------------------------------
  // What the update promises

  /** The weeks in the store once the update is through: what it wrote, else what was there. */
  function After(weeks: seq<StoredWeek>, upd: TaskUpdate): seq<StoredWeek> {
    UpdateOutcome(Some(weeks), upd).1.GetOr(weeks)
  }

  /** The update fails with 404 exactly when no week with that number holds a task with that text, and then writes nothing. */
  lemma NotFoundIffNoMatch(weeks: seq<StoredWeek>, upd: TaskUpdate)
    ensures UpdateOutcome(Some(weeks), upd).0.Err? <==> forall w, t :: !Targets(weeks, upd, w, t)
    ensures UpdateOutcome(Some(weeks), upd).0.Err? ==>
              UpdateOutcome(Some(weeks), upd) == (Err(NoTask), None)
  {
  }

  /**
   * After a successful update the targeted task has the requested status and
   * link, and every other week and task is as it was.
   */
  lemma UpdateEffect(weeks: seq<StoredWeek>, upd: TaskUpdate)
    requires Locate(weeks, upd).Some?
    ensures var (wi, ti) := Locate(weeks, upd).value;
            var after := After(weeks, upd);
            && |after| == |weeks|
            && after[wi].tasks[ti].isCompleted == Some(upd.status)
            && after[wi].tasks[ti].resourceLink == upd.resourceLink
            && after[wi].tasks[ti].task == weeks[wi].tasks[ti].task
            && after[wi].week == weeks[wi].week && |after[wi].tasks| == |weeks[wi].tasks|
            && (forall w :: 0 <= w < |weeks| && w != wi ==> after[w] == weeks[w])
            && (forall t :: 0 <= t < |weeks[wi].tasks| && t != ti ==> after[wi].tasks[t] == weeks[wi].tasks[t])
  {
    var (wi, ti) := Locate(weeks, upd).value;
    var t := weeks[wi].tasks[ti];
    SetTaskAgain(weeks, wi, ti, Apply(t, upd), Apply(t, upd));
    if !Changes(t, upd) {
      assert Apply(t, upd) == t;
      SetTaskSame(weeks, wi, ti);
    }
  }

  /** The returned week is the stored week that holds the updated task, read back. */
  lemma ReturnsUpdatedWeek(weeks: seq<StoredWeek>, upd: TaskUpdate)
    requires Locate(weeks, upd).Some?
    ensures var (wi, ti) := Locate(weeks, upd).value;
            && UpdateOutcome(Some(weeks), upd).0 == Ok(NormalizeWeek(After(weeks, upd)[wi]))
            && NormalizeWeek(After(weeks, upd)[wi]).tasks[ti] == RoadmapTask(upd.task, upd.status, upd.resourceLink)
  {
    var (wi, ti) := Locate(weeks, upd).value;
    var t := weeks[wi].tasks[ti];
    SetTaskAgain(weeks, wi, ti, Apply(t, upd), Apply(t, upd));
    if !Changes(t, upd) {
      assert Apply(t, upd) == t;
      SetTaskSame(weeks, wi, ti);
    }
  }

  /** The store is written exactly when the targeted task's status or link differs from the request. */
  lemma WrittenIffChanged(weeks: seq<StoredWeek>, upd: TaskUpdate)
    requires Locate(weeks, upd).Some?
    ensures var (wi, ti) := Locate(weeks, upd).value;
            UpdateOutcome(Some(weeks), upd).1.Some? <==> Changes(weeks[wi].tasks[ti], upd)
  {
  }

  /** Changing one task's status and link leaves every week number and task text, so every search, as it was. */
  lemma {:induction false} LocateFromStable(weeks: seq<StoredWeek>, upd: TaskUpdate, wi: nat, ti: nat, t: StoredTask, from: nat)
    requires wi < |weeks| && ti < |weeks[wi].tasks| && t.task == weeks[wi].tasks[ti].task
    requires from <= |weeks|
    ensures LocateFrom(SetTask(weeks, wi, ti, t), upd, from) == LocateFrom(weeks, upd, from)
    decreases |weeks| - from
  {
    var weeks' := SetTask(weeks, wi, ti, t);
    if from < |weeks| {
      forall w, k | 0 <= w < |weeks| && 0 <= k < |weeks[w].tasks|
        ensures Targets(weeks', upd, w, k) == Targets(weeks, upd, w, k)
      {
      }
      TaskIndexStable(weeks, weeks', upd, from, 0);
      LocateFromStable(weeks, upd, wi, ti, t, from + 1);
    }
  }

  lemma {:induction false} TaskIndexStable(weeks: seq<StoredWeek>, weeks': seq<StoredWeek>, upd: TaskUpdate, w: nat, from: nat)
    requires w < |weeks| == |weeks'| && |weeks'[w].tasks| == |weeks[w].tasks| && from <= |weeks[w].tasks|
    requires forall k :: 0 <= k < |weeks[w].tasks| ==> weeks'[w].tasks[k].task == weeks[w].tasks[k].task
    ensures TaskIndex(weeks'[w].tasks, upd.task, from) == TaskIndex(weeks[w].tasks, upd.task, from)
    decreases |weeks[w].tasks| - from
  {
    if from < |weeks[w].tasks| {
      TaskIndexStable(weeks, weeks', upd, w, from + 1);
    }
  }

  /** Sending the same update twice: the second finds the same task, changes nothing, writes nothing, and returns the same week. */
  lemma UpdateIdempotent(weeks: seq<StoredWeek>, upd: TaskUpdate)
    ensures UpdateOutcome(Some(After(weeks, upd)), upd).1.None?
    ensures UpdateOutcome(Some(After(weeks, upd)), upd).0 == UpdateOutcome(Some(weeks), upd).0
  {
    match Locate(weeks, upd)
    case None =>
    case Some((wi, ti)) =>
      var t := weeks[wi].tasks[ti];
      var applied := SetTask(weeks, wi, ti, Apply(t, upd));
      LocateFromStable(weeks, upd, wi, ti, Apply(t, upd), 0);
      SetTaskAgain(weeks, wi, ti, Apply(t, upd), Apply(t, upd));
      assert Apply(Apply(t, upd), upd) == Apply(t, upd);
      if !Changes(t, upd) {
        assert Apply(t, upd) == t;
        SetTaskSame(weeks, wi, ti);
      }
  }
}
