/**
 * The roadmap page: a map of checkbox states keyed "weekIndex-taskIndex",
 * filled from the fetched weeks, toggled one key at a time, and read back to
 * classify each week as pending, active or completed.
 */
module RoadmapPage {
  import opened Text
  import opened Records

  /** The key of task `t` of week `w` (both positions, not week numbers): `${w}-${t}`. */
  function Key(w: nat, t: nat): string {
    NatToString(w) + "-" + NatToString(t)
  }

  /** Two digit strings joined by a dash can be split back only one way. */
  lemma {:induction false} DashSplit(a: string, b: string, c: string, d: string)
    requires IsDigits(a) && IsDigits(b) && IsDigits(c) && IsDigits(d)
    requires a + "-" + b == c + "-" + d
    ensures a == c && b == d
  {
    var s := a + "-" + b;
    assert s[|a|] == '-';
    assert s[|c|] == '-';
    assert forall i :: 0 <= i < |a| ==> s[i] == a[i];
    assert forall i :: 0 <= i < |c| ==> s[i] == c[i];
    assert |a| == |c|;
    assert a == s[..|a|] == c;
    assert b == s[|a| + 1..] == d;
  }

  /** Distinct positions have distinct keys. */
  lemma KeyInjective(w1: nat, t1: nat, w2: nat, t2: nat)
    requires Key(w1, t1) == Key(w2, t2)
    ensures w1 == w2 && t1 == t2
  {
    DashSplit(NatToString(w1), NatToString(t1), NatToString(w2), NatToString(t2));
    NatToStringInjective(w1, w2);
    NatToStringInjective(t1, t2);
  }

  /** Task `t` of week `w` exists in the fetched weeks. */
  predicate IsTask(weeks: seq<RoadmapWeek>, w: nat, t: nat) {
    w < |weeks| && t < |weeks[w].tasks|
  }

  /**
   * The initial status map: for each week and each of its tasks, in order, the
   * task's key is set to its `isCompleted`.
   */
  method InitialStatus(weeks: seq<RoadmapWeek>) returns (status: map<string, bool>)
    ensures forall w: nat, t: nat :: IsTask(weeks, w, t) ==> Key(w, t) in status && status[Key(w, t)] == weeks[w].tasks[t].isCompleted
    ensures forall k :: k in status ==> exists w: nat, t: nat :: IsTask(weeks, w, t) && k == Key(w, t)
  {
    status := map[];
    var w := 0;
    while w < |weeks|
      invariant 0 <= w <= |weeks|
      invariant forall w': nat, t: nat :: w' < w && IsTask(weeks, w', t) ==> Key(w', t) in status && status[Key(w', t)] == weeks[w'].tasks[t].isCompleted
      invariant forall k :: k in status ==> exists w': nat, t: nat :: IsTask(weeks, w', t) && k == Key(w', t)
    {
      var t := 0;
      while t < |weeks[w].tasks|
        invariant 0 <= t <= |weeks[w].tasks|
        invariant forall w': nat, t': nat :: ((w' < w && IsTask(weeks, w', t')) || (w' == w && t' < t)) ==>
                    Key(w', t') in status && status[Key(w', t')] == weeks[w'].tasks[t'].isCompleted
        invariant forall k :: k in status ==> exists w': nat, t': nat :: IsTask(weeks, w', t') && k == Key(w', t')
      {
        forall w': nat, t': nat | Key(w', t') == Key(w, t) ensures w' == w && t' == t {
          KeyInjective(w', t', w, t);
        }
        status := status[Key(w, t) := weeks[w].tasks[t].isCompleted];
        t := t + 1;
      }
      w := w + 1;
    }
  }

  /** JavaScript truthiness of `status[key]`: an absent key reads as false. */
  function Checked(status: map<string, bool>, key: string): bool {
    key in status && status[key]
  }

  /** `handleCheckboxChange`: the key is set to the negation of what it read as. */
  function Toggle(status: map<string, bool>, w: nat, t: nat): (r: map<string, bool>)
    ensures Key(w, t) in r && r[Key(w, t)] == !Checked(status, Key(w, t))
    ensures forall k :: k != Key(w, t) ==> (k in r <==> k in status) && (k in status ==> r[k] == status[k])
  {
    status[Key(w, t) := !Checked(status, Key(w, t))]
  }

  /** Toggling twice restores the key's reading (an absent key ends up explicitly false). */
  lemma ToggleTwice(status: map<string, bool>, w: nat, t: nat)
    ensures forall k :: Checked(Toggle(Toggle(status, w, t), w, t), k) == Checked(status, k)
    ensures Key(w, t) in status ==> Toggle(Toggle(status, w, t), w, t) == status
  {
  }

  /** The checkbox reading of each of the first `n` tasks of week `w`, in task order. */
  function Marks(status: map<string, bool>, w: nat, n: nat): (m: seq<bool>)
    ensures |m| == n && forall t :: 0 <= t < n ==> m[t] == Checked(status, Key(w, t))
  {
    seq(n, t requires 0 <= t => Checked(status, Key(w, t)))
  }

  /** How many marks are set: the length of the `filter` over the tasks. */
  function CountTrue(bs: seq<bool>): (c: nat)
    ensures c <= |bs|
  {
    if bs == [] then 0 else CountTrue(bs[..|bs| - 1]) + (if bs[|bs| - 1] then 1 else 0)
  }

  lemma {:induction false} CountTrueAll(bs: seq<bool>)
    ensures CountTrue(bs) == |bs| <==> forall i :: 0 <= i < |bs| ==> bs[i]
  {
    if bs != [] {
      var init := bs[..|bs| - 1];
      CountTrueAll(init);
      assert forall i :: 0 <= i < |init| ==> init[i] == bs[i];
    }
  }

  lemma {:induction false} CountTrueNone(bs: seq<bool>)
    ensures CountTrue(bs) == 0 <==> forall i :: 0 <= i < |bs| ==> !bs[i]
  {
    if bs != [] {
      var init := bs[..|bs| - 1];
      CountTrueNone(init);
      assert forall i :: 0 <= i < |init| ==> init[i] == bs[i];
    }
  }

  datatype WeekStatus = Pending | Active | Completed

  /** `getWeekStatus`: the week at position `w` classified from the status map. */
  function GetWeekStatus(week: RoadmapWeek, w: nat, status: map<string, bool>): (r: WeekStatus)
    ensures r == Completed <==> |week.tasks| > 0 && forall t :: 0 <= t < |week.tasks| ==> Checked(status, Key(w, t))
    ensures r == Active <==> (exists t :: 0 <= t < |week.tasks| && Checked(status, Key(w, t)))
                             && (exists t :: 0 <= t < |week.tasks| && !Checked(status, Key(w, t)))
    ensures r == Pending <==> forall t :: 0 <= t < |week.tasks| ==> !Checked(status, Key(w, t))
  {
    var total := |week.tasks|;
    var marks := Marks(status, w, total);
    CountTrueAll(marks);
    CountTrueNone(marks);
    if total == 0 then Pending
    else
      var completed := CountTrue(marks);
      if completed == total then Completed
      else if completed > 0 then Active
      else Pending
  }

  /**
   * `getBulletContent`: a mark for a completed week only. The page's literal is
   * the three characters U+201A U+00FA U+00EC, the UTF-8 bytes of a check mark
   * read back as Mac Roman, and that is what it renders.
   */
  function BulletContent(s: WeekStatus): (r: string)
    ensures r != "" <==> s == Completed
    ensures s == Completed ==> r == ['\U{201A}', '\U{00FA}', '\U{00EC}']
  {
    if s == Completed then "\U{201A}\U{00FA}\U{00EC}" else ""
  }

  /** A freshly loaded page classifies each week by its tasks' own `isCompleted`. */
  lemma LoadedWeekStatus(weeks: seq<RoadmapWeek>, status: map<string, bool>, w: nat)
    requires w < |weeks|
    requires forall w': nat, t: nat :: IsTask(weeks, w', t) ==> Key(w', t) in status && status[Key(w', t)] == weeks[w'].tasks[t].isCompleted
    ensures GetWeekStatus(weeks[w], w, status) == Completed <==>
              |weeks[w].tasks| > 0 && forall t :: 0 <= t < |weeks[w].tasks| ==> weeks[w].tasks[t].isCompleted
  {
    assert forall t: nat :: t < |weeks[w].tasks| ==> Checked(status, Key(w, t)) == weeks[w].tasks[t].isCompleted;
  }
}
