/**
  The program page (src/pages/ProgramPage.tsx): marking an activity complete
  and recomputing the program's progress percentage.
*/
module ProgramPage {
  import opened Types
  import opened TherapeuticProgram

  /**
    `Math.round((completed / total) * 100)` on exact rationals: the nearest
    whole percentage, halves rounded up; 0/0 gives NaN.
  */
  function RoundedPercent(completed: nat, total: nat): (p: Percent)
    requires completed <= total
    ensures p.NaN? <==> total == 0
    ensures p.Pct? ==> 0 <= p.value <= 100
    ensures p.Pct? ==> 2 * total * p.value - total <= 200 * completed < 2 * total * p.value + total
  {
    if total == 0 then NaN
    else
      var q := (200 * completed + total) / (2 * total);
      assert 2 * total * q <= 200 * completed + total < 2 * total * q + 2 * total;
      assert q <= 100 by {
        if q > 100 {
          ScaleMonotone(2 * total, 101, q);
        }
      }
      Pct(q)
  }

  /** Multiplying by a non-negative factor keeps the order. */
  lemma ScaleMonotone(k: nat, a: int, b: int)
    requires a <= b
    ensures k * a <= k * b
  {
    assert k * b - k * a == k * (b - a);
  }

  /** The number of completed activities, `filter(a => a.completed).length`. */
  function CompletedCount(acts: seq<Activity>): (n: nat)
    ensures n <= |acts|
  {
    |CompletedActivities(acts)|
  }

  /** The progress a list of activities should show. */
  function Progress(acts: seq<Activity>): (p: Percent)
    ensures p.NaN? <==> acts == []
    ensures p.Pct? ==> 0 <= p.value <= 100
  {
    RoundedPercent(CompletedCount(acts), |acts|)
  }

  /**
    The `map` in `handleMarkComplete`: every activity whose id is `id`
    becomes completed, every other field and every other activity is kept.
  */
  function MarkComplete(acts: seq<Activity>, id: string): (r: seq<Activity>)
    ensures |r| == |acts|
    ensures forall i :: 0 <= i < |acts| ==> (r[i].completed <==> acts[i].completed || acts[i].id == id)
    ensures forall i :: 0 <= i < |acts| ==> r[i].(completed := acts[i].completed) == acts[i]
  {
    seq(|acts|, i requires 0 <= i < |acts| =>
      if acts[i].id == id then acts[i].(completed := true) else acts[i])
  }

  /** `handleMarkComplete(activityId)`: the new program state. */
  function HandleMarkComplete(p: Program, id: string): (r: Program)
    ensures r.id == p.id && r.name == p.name && r.description == p.description && r.assignedBy == p.assignedBy
    ensures r.activities == MarkComplete(p.activities, id)
    ensures r.progress == Progress(r.activities)
    ensures |p.activities| > 0 ==> ProgressInRange(r)
  {
    var acts := MarkComplete(p.activities, id);
    p.(activities := acts, progress := Progress(acts))
  }

  lemma MarkCompleteTail(acts: seq<Activity>, id: string)
    requires acts != []
    ensures MarkComplete(acts, id)[1..] == MarkComplete(acts[1..], id)
  {
  }

  /** Completion flags only move from false to true: the completed count never decreases,
      and grows exactly when some activity with that id was not yet completed. */
  lemma {:induction false} CompletedCountGrows(acts: seq<Activity>, id: string)
    ensures CompletedCount(MarkComplete(acts, id)) >= CompletedCount(acts)
    ensures CompletedCount(MarkComplete(acts, id)) > CompletedCount(acts) <==>
            exists i :: 0 <= i < |acts| && acts[i].id == id && !acts[i].completed
    decreases |acts|
  {
    if acts != [] {
      var m := MarkComplete(acts, id);
      MarkCompleteTail(acts, id);
      CompletedCountGrows(acts[1..], id);
      assert forall i :: 0 < i < |acts| ==> acts[i] == acts[1..][i - 1];
      assert CompletedCount(m) == (if m[0].completed then 1 else 0) + CompletedCount(m[1..]);
    }
  }

  /** Marking the same id twice is marking it once. */
  lemma MarkCompleteIdempotent(acts: seq<Activity>, id: string)
    ensures MarkComplete(MarkComplete(acts, id), id) == MarkComplete(acts, id)
  {
  }

  /** An id no activity has leaves the activities as they were. */
  lemma MarkCompleteUnknownId(acts: seq<Activity>, id: string)
    requires forall i :: 0 <= i < |acts| ==> acts[i].id != id
    ensures MarkComplete(acts, id) == acts
  {
  }

  /** Marking activities that are already completed leaves a program whose
      stored progress is up to date exactly as it was. */
  lemma HandleMarkCompleteAlreadyCompleted(p: Program, id: string)
    requires forall i :: 0 <= i < |p.activities| && p.activities[i].id == id ==> p.activities[i].completed
    requires p.progress == Progress(p.activities)
    ensures HandleMarkComplete(p, id) == p
  {
    assert MarkComplete(p.activities, id) == p.activities;
  }

  /**
    A fully completed list shows 100; a list that shows 100 is fully completed
    as long as it has fewer than 200 activities (199 of 200 rounds up to 100).
  */
  lemma {:induction false} FullProgressIffAllCompleted(acts: seq<Activity>)
    requires acts != []
    ensures (forall i :: 0 <= i < |acts| ==> acts[i].completed) ==> Progress(acts) == Pct(100)
    ensures Progress(acts) == Pct(100) && |acts| < 200 ==> forall i :: 0 <= i < |acts| ==> acts[i].completed
  {
    CountAllIffAllCompleted(acts);
    var c, t := CompletedCount(acts), |acts|;
    var q := Progress(acts).value;
    if c == t {
      if q < 100 {
        ScaleMonotone(2 * t, q, 99);
      }
    }
  }

  lemma {:induction false} CountAllIffAllCompleted(acts: seq<Activity>)
    ensures CompletedCount(acts) == |acts| <==> forall i :: 0 <= i < |acts| ==> acts[i].completed
    decreases |acts|
  {
    if acts != [] {
      CountAllIffAllCompleted(acts[1..]);
      assert forall i :: 0 < i < |acts| ==> acts[i] == acts[1..][i - 1];
    }
  }
}
