/**
  The list view of a program (src/components/dashboard/TherapeuticProgram.tsx):
  which activity is offered next, which activities are locked by the
  order-based rule, and what the completed tab lists.
*/
module TherapeuticProgram {
  import opened Types
  import opened Sequences

  /** `activities.find(a => !a.completed)`, as an index: the activity of the "Next Activity" tab. */
  function NextActivity(acts: seq<Activity>): (r: Option<nat>)
    ensures r.None? <==> forall i :: 0 <= i < |acts| ==> acts[i].completed
    ensures r.Some? ==> r.value < |acts| && !acts[r.value].completed
    ensures r.Some? ==> forall j :: 0 <= j < r.value ==> acts[j].completed
  {
    if acts == [] then None
    else if !acts[0].completed then Some(0)
    else
      match NextActivity(acts[1..])
      case None =>
        assert forall i :: 0 < i < |acts| ==> acts[i] == acts[1..][i - 1];
        None
      case Some(i) =>
        assert forall j :: 0 < j <= i ==> acts[j] == acts[1..][j - 1];
        Some(i + 1)
  }

  /** "All activities completed!" is shown instead of a next activity. */
  function AllCompletedMessage(acts: seq<Activity>): (shown: bool)
    ensures shown <==> forall i :: 0 <= i < |acts| ==> acts[i].completed
  {
    NextActivity(acts).None?
  }

  /** `activities.find(a => a.order === k)`, as an index. */
  function FindByOrder(acts: seq<Activity>, k: int): (r: Option<nat>)
    ensures r.None? <==> forall i :: 0 <= i < |acts| ==> acts[i].order != k
    ensures r.Some? ==> r.value < |acts| && acts[r.value].order == k
    ensures r.Some? ==> forall j :: 0 <= j < r.value ==> acts[j].order != k
  {
    if acts == [] then None
    else if acts[0].order == k then Some(0)
    else
      match FindByOrder(acts[1..], k)
      case None =>
        assert forall i :: 0 < i < |acts| ==> acts[i] == acts[1..][i - 1];
        None
      case Some(i) =>
        assert forall j :: 0 < j <= i ==> acts[j] == acts[1..][j - 1];
        Some(i + 1)
  }

  /**
    The order-based lock of the "All Activities" tab: an activity is locked
    when its order is above 1 and the first activity whose order is one less
    is missing or not completed.
  */
  function OrderLocked(acts: seq<Activity>, a: Activity): (locked: bool)
    ensures a.order <= 1 ==> !locked
    ensures a.order > 1 && (forall i :: 0 <= i < |acts| ==> acts[i].order != a.order - 1) ==> locked
    ensures forall i :: 0 <= i < |acts| && acts[i].order == a.order - 1 &&
                        (forall j :: 0 <= j < i ==> acts[j].order != a.order - 1) ==>
                        (locked <==> a.order > 1 && !acts[i].completed)
  {
    a.order > 1 &&
    match FindByOrder(acts, a.order - 1)
    case None => true
    case Some(i) => !acts[i].completed
  }

  /** `activities.filter(a => a.completed)`: the completed tab, in program order. */
  function CompletedActivities(acts: seq<Activity>): (r: seq<Activity>)
    ensures |r| <= |acts|
    ensures forall i :: 0 <= i < |r| ==> r[i].completed
    ensures forall a :: a in r <==> a in acts && a.completed
    ensures IsSubsequence(r, acts)
  {
    if acts == [] then []
    else if acts[0].completed then
      var rest := CompletedActivities(acts[1..]);
      assert ([acts[0]] + rest)[1..] == rest;
      [acts[0]] + rest
    else
      CompletedActivities(acts[1..])
  }

  /** The Completed tab keeps every copy of a completed activity: each one occurs
      there exactly as often as in the program, and an uncompleted one never. */
  lemma {:induction false} CompletedActivitiesKeepsCopies(acts: seq<Activity>)
    ensures forall a :: multiset(CompletedActivities(acts))[a] == (if a.completed then multiset(acts)[a] else 0)
  {
    if acts != [] {
      CompletedActivitiesKeepsCopies(acts[1..]);
      assert acts == [acts[0]] + acts[1..];
    }
  }

  /** "No completed activities yet." is shown exactly when no activity is completed. */
  function NoCompletedMessage(acts: seq<Activity>): (shown: bool)
    ensures shown <==> forall i :: 0 <= i < |acts| ==> !acts[i].completed
  {
    var r := CompletedActivities(acts);
    assert r != [] ==> r[0] in acts;
    |r| == 0
  }
}
