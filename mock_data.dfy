/**
  The program fixture of src/data/mockData.ts, worked through the
  progress, next-activity and lock rules as a concrete instance.
*/
module MockData {
  import opened Types
  import opened TherapeuticProgram
  import opened ProgramPage
  import opened ProgramFlowView
  import opened ProgramRules
  import opened ActivityItem

  const MockActivities: seq<Activity> := [
    Activity("act-1", "Introduction to Mindfulness",
      "Understanding the basics of mindfulness and its benefits for anxiety management.",
      Video, true, "https://www.youtube.com/embed/ZToicYcHIOU", None, 1),
    Activity("act-2", "Guided Relaxation",
      "A 10-minute guided relaxation session to practice deep breathing and body awareness.",
      Audio, true, "https://example.com/relaxation.mp3", Some(10), 2),
    Activity("act-3", "Reflection Journal",
      "Record your thoughts and feelings about situations that trigger anxiety.",
      Journal, false, "", None, 3),
    Activity("act-4", "Mindful Walking Exercise",
      "A 15-minute walking meditation to practice mindfulness in movement.",
      Walk, false, "", Some(15), 4),
    Activity("act-5", "Box Breathing Technique",
      "Learn and practice the box breathing technique to manage acute anxiety symptoms.",
      Breathing, false, "", Some(5), 5)
  ]

  const MockProgram := Program(
    "prog-1",
    "Anxiety Reduction Program",
    "A personalized program designed to help you manage anxiety through mindfulness techniques, cognitive restructuring, and gradual exposure.",
    MockActivities,
    Pct(40),
    DoctorRef("doc-1", "Dr. Sarah Johnson"))

  lemma MockCompletions()
    ensures |MockActivities| == 5
    ensures forall i :: 0 <= i < |MockActivities| ==> (MockActivities[i].completed <==> i < 2)
  {
  }

  lemma MockOrders()
    ensures OrdersSequential(MockActivities)
  {
  }

  /** The stored progress of 40 is what the recomputation gives for 2 of 5 completed. */
  lemma MockProgressIsConsistent()
    ensures CompletedCount(MockProgram.activities) == 2
    ensures MockProgram.progress == Progress(MockProgram.activities)
  {
    MockProgramFields();
    MockCount();
    MockRecomputedProgress();
  }

  lemma MockProgramFields()
    ensures MockProgram.activities == MockActivities && MockProgram.progress == Pct(40)
  {
  }

  lemma MockRecomputedProgress()
    ensures Progress(MockActivities) == Pct(40)
  {
    MockCount();
    ProgressOfCount(MockActivities, 2);
    FifthsRounded();
  }

  lemma ProgressOfCount(acts: seq<Activity>, k: nat)
    requires CompletedCount(acts) == k
    ensures Progress(acts) == RoundedPercent(k, |acts|)
  {
  }

  /** Two and three of five activities are 40% and 60%. */
  lemma FifthsRounded()
    ensures RoundedPercent(2, 5) == Pct(40) && RoundedPercent(3, 5) == Pct(60)
  {
  }

  lemma MockCount()
    ensures |MockActivities| == 5 && CompletedCount(MockActivities) == 2
  {
    MockCompletions();
    CompletedCountOfPrefix(MockActivities, 2);
  }

  /** In the fixture the journal is next and unlocked, the walk and the breathing are locked,
      and both lock rules say so. */
  lemma MockLocks()
    ensures OrdersSequential(MockActivities) && CompletedPrefix(MockActivities)
    ensures NextActivity(MockActivities) == Some(2)
    ensures !IndexLocked(MockActivities, 2) && IndexLocked(MockActivities, 3) && IndexLocked(MockActivities, 4)
    ensures !OrderLocked(MockActivities, MockActivities[2]) && OrderLocked(MockActivities, MockActivities[3])
    ensures OrderLocked(MockActivities, MockActivities[4])
  {
    MockCompletions();
    MockOrders();
    MockNext();
    LockRulesAgree(MockActivities, 2);
    LockRulesAgree(MockActivities, 3);
    LockRulesAgree(MockActivities, 4);
  }

  lemma MockNext()
    ensures NextActivity(MockActivities) == Some(2)
  {
    MockCompletions();
    assert !MockActivities[2].completed;
  }

  /** The activity ids differ from "act-3" except at index 2. */
  lemma MockIdsOtherThanJournal()
    ensures forall i :: 0 <= i < 5 ==> (MockActivities[i].id == "act-3" <==> i == 2)
  {
    assert MockActivities[0].id[4] != '3' && MockActivities[1].id[4] != '3';
    assert MockActivities[3].id[4] != '3' && MockActivities[4].id[4] != '3';
  }

  /** Completing the journal raises the progress to 60. */
  lemma MockCompleteJournal()
    ensures HandleMarkComplete(MockProgram, "act-3").progress == Pct(60)
  {
    MockCompletions();
    MockIdsOtherThanJournal();
    var m := MarkComplete(MockActivities, "act-3");
    assert forall i :: 0 <= i < 5 ==> (m[i].completed <==> i < 3);
    CompletedCountOfPrefix(m, 3);
    FifthsRounded();
  }

  /** In the "All Activities" tab the fixture's walk shows the Locked badge and a
      disabled button, yet its walk player marks it complete; with the lock applied
      to the player it cannot be completed. */
  lemma MockLockedWalkCard()
    ensures Render(MockActivities[3], ItemProps(OrderLocked(MockActivities, MockActivities[3]), true)).lockedBadge
    ensures Render(MockActivities[3], ItemProps(OrderLocked(MockActivities, MockActivities[3]), true)).completeButton == Disabled
    ensures OffersCompletion(Render(MockActivities[3], ItemProps(OrderLocked(MockActivities, MockActivities[3]), true)))
    ensures !OffersCompletion(RenderGuarded(MockActivities[3], ItemProps(OrderLocked(MockActivities, MockActivities[3]), true)))
  {
    MockLocks();
  }

  /** The handler completes a locked activity just the same: marking the locked walk
      leaves completions that are no longer in order. */
  lemma MockCompleteLockedWalk()
    ensures IndexLocked(MockActivities, 3)
    ensures HandleMarkComplete(MockProgram, "act-4").activities[3].completed
    ensures !CompletedPrefix(HandleMarkComplete(MockProgram, "act-4").activities)
  {
    var m := HandleMarkComplete(MockProgram, "act-4").activities;
    assert m[2] == MockActivities[2];
    assert m[3].completed && !m[2].completed;
  }
}
