/**
  Rules that hold across the list view, the flow view and the program page:
  when the two lock rules agree, and how completing only unlocked
  activities keeps the program's completions in order.
*/
module ProgramRules {
  import opened Types
  import opened TherapeuticProgram
  import opened ProgramPage
  import opened ProgramFlowView
  import opened ActivityItem

  /** The activities' `order` values are exactly 1..n in array order. */
  predicate OrdersSequential(acts: seq<Activity>) {
    forall i :: 0 <= i < |acts| ==> acts[i].order == i + 1
  }

  /** No two activities share an id. */
  predicate UniqueIds(acts: seq<Activity>) {
    forall i, j :: 0 <= i < |acts| && 0 <= j < |acts| && acts[i].id == acts[j].id ==> i == j
  }

  /** The completed activities form a prefix of the program. */
  predicate CompletedPrefix(acts: seq<Activity>) {
    forall i, j :: 0 <= i < j < |acts| && acts[j].completed ==> acts[i].completed
  }

  /** When orders are 1..n in array order, the list view's order-based lock and
      the flow view's index-based lock agree on every activity. */
  lemma LockRulesAgree(acts: seq<Activity>, i: nat)
    requires OrdersSequential(acts) && i < |acts|
    ensures OrderLocked(acts, acts[i]) == IndexLocked(acts, i)
  {
    if i > 0 {
      assert acts[i - 1].order == acts[i].order - 1;
      assert forall j :: 0 <= j < i - 1 ==> acts[j].order != acts[i].order - 1;
    }
  }

  /** Completing an activity that is not locked keeps the completed activities a prefix.
      The handler does not check the lock itself; this is what the lock rule buys. */
  lemma CompletingUnlockedKeepsPrefix(acts: seq<Activity>, k: nat)
    requires k < |acts| && UniqueIds(acts) && CompletedPrefix(acts)
    requires !IndexLocked(acts, k)
    ensures CompletedPrefix(MarkComplete(acts, acts[k].id))
  {
    var m := MarkComplete(acts, acts[k].id);
    forall i, j | 0 <= i < j < |m| && m[j].completed
      ensures m[i].completed
    {
      if j == k {
        if i < k - 1 {
          assert acts[k - 1].completed;
        }
      } else {
        assert acts[j].completed;
      }
    }
  }

  /** The same for the list view's order-based lock. */
  lemma CompletingOrderUnlockedKeepsPrefix(acts: seq<Activity>, k: nat)
    requires k < |acts| && UniqueIds(acts) && CompletedPrefix(acts) && OrdersSequential(acts)
    requires !OrderLocked(acts, acts[k])
    ensures CompletedPrefix(MarkComplete(acts, acts[k].id))
  {
    LockRulesAgree(acts, k);
    CompletingUnlockedKeepsPrefix(acts, k);
  }

  /** In a program completed in order, the only unlocked, uncompleted activity is the next one. */
  lemma UnlockedUncompletedIsNext(acts: seq<Activity>, i: nat)
    requires i < |acts| && CompletedPrefix(acts)
    ensures !acts[i].completed && !IndexLocked(acts, i) <==> NextActivity(acts) == Some(i)
  {
    if NextActivity(acts) == Some(i) && i > 0 {
      assert acts[i - 1].completed;
    }
    if !acts[i].completed && !IndexLocked(acts, i) {
      assert forall j :: 0 <= j < i ==> acts[j].completed by {
        forall j | 0 <= j < i
          ensures acts[j].completed
        {
          if j < i - 1 {
            assert acts[i - 1].completed;
          }
        }
      }
    }
  }

  /** The "All Activities" tab of a program completed in order, with orders 1..n,
      offers exactly one enabled "Mark as Complete" button: that of the next activity. */
  lemma AllTabEnablesOnlyNext(acts: seq<Activity>, i: nat)
    requires i < |acts| && CompletedPrefix(acts) && OrdersSequential(acts)
    ensures Render(acts[i], ItemProps(OrderLocked(acts, acts[i]), true)).completeButton == Enabled
            <==> NextActivity(acts) == Some(i)
  {
    LockRulesAgree(acts, i);
    UnlockedUncompletedIsNext(acts, i);
  }

  /** With the lock applied to the player too, the "All Activities" tab of a program
      completed in order offers a way to complete an uncompleted activity exactly when
      it is the next one. */
  lemma AllTabGuardedCompletesOnlyNext(acts: seq<Activity>, i: nat)
    requires i < |acts| && CompletedPrefix(acts) && OrdersSequential(acts)
    requires !acts[i].completed
    ensures OffersCompletion(RenderGuarded(acts[i], ItemProps(OrderLocked(acts, acts[i]), true)))
            <==> NextActivity(acts) == Some(i)
  {
    LockRulesAgree(acts, i);
    UnlockedUncompletedIsNext(acts, i);
  }

  /** When the first k activities and no others are completed, k are counted. */
  lemma {:induction false} CompletedCountOfPrefix(acts: seq<Activity>, k: nat)
    requires forall i :: 0 <= i < |acts| ==> (acts[i].completed <==> i < k)
    requires k <= |acts|
    ensures CompletedCount(acts) == k
    decreases |acts|
  {
    if acts != [] {
      assert forall i :: 0 < i < |acts| ==> acts[i] == acts[1..][i - 1];
      if k > 0 {
        CompletedCountOfPrefix(acts[1..], k - 1);
      } else {
        CompletedCountOfPrefix(acts[1..], 0);
      }
    }
  }
}
