# HopeLink patient dashboard — a Dafny model

This project models the logic of the HopeLink patient dashboard. HopeLink is a
React application in which a patient follows a therapeutic program their doctor
assigned, searches for doctors and invites them, and manages their profile.

The model covers these parts:

- **Program progress.** Marking an activity complete recomputes the program's
  progress as a rounded percentage (`ProgramPage`).
- **Activity order.** The list view and the flow view each have a rule that
  marks an activity locked until the one before it is completed
  (`TherapeuticProgram`, `ActivityItem`, `ProgramFlowView`). In the flow view a
  locked activity cannot be opened. In the list view the lock only disables the
  "Mark as Complete" button and shows a Locked badge: the card's journal, walk or
  breathing player still completes the activity (see "## Findings").
  `ProgramRules` relates the two rules to each other and to completion.
- **Activity players.**
  - the journal's minimum `length` of ten, counted in UTF-16 code units (`JournalActivity`);
  - the walk timer and its `m:ss` display (`WalkActivity`);
  - the 4-4-4-4 box-breathing timer (`BreathingActivity`).
- **Password change.** The strength score, the Weak/Medium/Strong rating and
  the form's validity and reset (`PasswordResetForm`).
- **Profile edit.** The split of the name into first and last name, the
  field-by-field edits and the save payload (`ProfileUpdateForm`).
- **Doctors.** The case-insensitive doctor search and the invitation-status
  display (`DoctorSearch`), and the invitation update (`DoctorsPage`).

How the model is organised:

- There is one Dafny module per source file.
- The entities of `src/types/index.ts` are datatypes in `Types`.
- `AsciiText` holds the string built-ins the code relies on: `trim`,
  `toLowerCase`, `includes`, number-to-string conversion and `parseInt`.
- Code that changes component state over time is modelled as a class whose
  methods change the fields. This covers the walk and breathing timers, the
  password form and the profile form. The breathing timer's class steps the
  phase with the corrected comparison described under "## Findings".
- Code that only computes a value is modelled as functions and lemmas.
- The program fixture of `src/data/mockData.ts` is worked through the rules in
  `MockData`.

Progress is `Math.round((completed / total) * 100)`. The model computes it
exactly on rationals, rounding halves up. An empty activity list gives `NaN`
(`Percent.NaN`), because the source divides 0 by 0.

## Model

| member | source | states |
|---|---|---|
| Types.ActivityTypesAreFive | src/types/index.ts:12 | there are exactly five activity kinds, all distinct |
| AsciiText.Trim | src/components/activities/JournalActivity.tsx:18 | `trim()` removes whitespace at both ends: the result is empty iff the input is all whitespace; otherwise it neither starts nor ends with whitespace |
| AsciiText.Utf16Length | src/components/activities/JournalActivity.tsx:18 | `length` counts UTF-16 code units: at least the number of characters and at most twice it, and 0 only for the empty string |
| AsciiText.Utf16LengthOfBmp | src/components/activities/JournalActivity.tsx:18 | a string within the Basic Multilingual Plane has one code unit per character |
| AsciiText.Utf16LengthOfAstral | src/components/activities/JournalActivity.tsx:18 | a string of characters beyond U+FFFF has two code units per character |
| AsciiText.TrimIgnoresPadding | src/components/activities/JournalActivity.tsx:18 | whitespace added before or after a string does not change its trimmed form |
| AsciiText.TrimOfUnpadded | src/components/profile/ProfileUpdateForm.tsx:36 | a string that neither starts nor ends with whitespace is its own trim |
| AsciiText.NatToDecimal | src/components/profile/ProfileUpdateForm.tsx:24 | `toString()` of a whole number gives decimal digits with no leading zero; one digit below 10, two below 100 |
| AsciiText.DecimalRoundTrip | src/components/profile/ProfileUpdateForm.tsx:24 | reading back the decimal digits of a number gives the number |
| AsciiText.LeadingDigits | src/components/profile/ProfileUpdateForm.tsx:39 | the run of digits `parseInt` reads is a prefix of the input, and the character after it is not a digit |
| AsciiText.ToLower | src/components/dashboard/DoctorSearch.tsx:33-36 | `toLowerCase()` keeps the length and maps each upper-case ASCII letter to its lower-case form |
| AsciiText.ToLowerIdempotent | src/components/dashboard/DoctorSearch.tsx:33-36 | lower-casing twice is lower-casing once |
| AsciiText.Contains | src/components/dashboard/DoctorSearch.tsx:35-36 | `includes`: the empty needle is in every string, and a needle is never found in a shorter string |
| AsciiText.ContainsIffOccurs | src/components/dashboard/DoctorSearch.tsx:35-36 | `includes` holds exactly when the needle starts at some position of the haystack |
| TherapeuticProgram.NextActivity | src/components/dashboard/TherapeuticProgram.tsx:37 | the next activity is the first one not completed; there is none iff all are completed |
| TherapeuticProgram.AllCompletedMessage | src/components/dashboard/TherapeuticProgram.tsx:69-76 | "All activities completed!" shows iff every activity is completed |
| TherapeuticProgram.FindByOrder | src/components/dashboard/TherapeuticProgram.tsx:86 | `find` by order returns the first activity with that order, or nothing when no activity has it |
| TherapeuticProgram.OrderLocked | src/components/dashboard/TherapeuticProgram.tsx:85-86 | an activity of order 1 or less is never locked; a later one is locked when no activity has the previous order, or when the first one that has it is not completed |
| TherapeuticProgram.CompletedActivities | src/components/dashboard/TherapeuticProgram.tsx:92 | the Completed tab holds only completed activities, every completed activity appears in it, and it is a sub-sequence of the program |
| TherapeuticProgram.CompletedActivitiesKeepsCopies | src/components/dashboard/TherapeuticProgram.tsx:92 | each completed activity occurs in the tab exactly as often as in the program and an uncompleted one never; with the sub-sequence property this fixes the tab's contents |
| TherapeuticProgram.NoCompletedMessage | src/components/dashboard/TherapeuticProgram.tsx:100 | "No completed activities yet." shows iff no activity is completed |
| ProgramPage.RoundedPercent | src/pages/ProgramPage.tsx:21-23 | the rounded percentage is within half a point of the exact ratio and lies in 0..100; it is NaN iff there are no activities |
| ProgramPage.CompletedCount | src/pages/ProgramPage.tsx:21 | the number of completed activities is at most the number of activities |
| ProgramPage.Progress | src/pages/ProgramPage.tsx:21-23 | the progress is NaN iff there are no activities, and otherwise lies in 0..100 |
| ProgramPage.MarkComplete | src/pages/ProgramPage.tsx:15-19 | the list keeps its length and order; an activity becomes completed iff it was completed or has the id; no other field changes |
| ProgramPage.HandleMarkComplete | src/pages/ProgramPage.tsx:14-30 | id, name, description and assignedBy are kept; the activities are updated; progress is recomputed from them and lies in 0..100 when the list is not empty |
| ProgramPage.CompletedCountGrows | src/pages/ProgramPage.tsx:15-21 | the completed count never decreases, and grows iff some activity with the id was not completed |
| ProgramPage.MarkCompleteIdempotent | src/pages/ProgramPage.tsx:15-19 | marking the same id twice is the same as marking it once |
| ProgramPage.MarkCompleteUnknownId | src/pages/ProgramPage.tsx:15-19 | an id that no activity has leaves the activities unchanged |
| ProgramPage.HandleMarkCompleteAlreadyCompleted | src/pages/ProgramPage.tsx:15-29 | marking an already completed activity leaves a program whose progress was consistent exactly as it was |
| ProgramPage.FullProgressIffAllCompleted | src/pages/ProgramPage.tsx:21-23 | all activities completed gives 100%; with fewer than 200 activities, 100% means all are completed |
| ProgramPage.CountAllIffAllCompleted | src/pages/ProgramPage.tsx:21-22 | the completed count equals the length iff every activity is completed |
| ActivityItem.TypeLabel | src/components/dashboard/ActivityItem.tsx:47-62 | every activity kind has a label of its own, so the fallback "Activity" is never shown |
| ActivityItem.TypeLabelInjective | src/components/dashboard/ActivityItem.tsx:47-62 | each activity kind has its own label |
| ActivityItem.DurationOr | src/components/dashboard/ActivityItem.tsx:73-75 | a missing or zero duration gives the fallback, any other value is kept |
| ActivityItem.RenderPlayer | src/components/dashboard/ActivityItem.tsx:64-79 | each kind gets its own player; walks default to 15 minutes and breathing to 5 |
| ActivityItem.Render | src/components/dashboard/ActivityItem.tsx:64-122 | the Completed badge shows iff the activity is completed; the Locked badge iff it is disabled and not completed; the button shows iff it is not completed and the button is wanted; the button is disabled iff the item is disabled; the player is rendered whatever the props, and it reports completion iff it is a journal, walk or breathing player |
| ActivityItem.LockedCardStillCompletes | src/components/dashboard/ActivityItem.tsx:71-75 | a locked, uncompleted journal, walk or breathing card shows Locked and no enabled button, yet still offers completion through its player |
| ActivityItem.RenderGuarded | src/components/dashboard/ActivityItem.tsx:64-122 | with the lock applied to the player too, a disabled card offers no way to complete its activity; an enabled card is rendered as before |
| ActivityItem.BadgesExclusive | src/components/dashboard/ActivityItem.tsx:92-97 | the Completed and Locked badges never show together, and a completed activity has no button |
| ActivityItem.DefaultPropsOfferButton | src/components/dashboard/ActivityItem.tsx:25-26 | with the default props, an uncompleted activity gets an enabled button and no Locked badge |
| ProgramFlowView.IndexLocked | src/components/dashboard/ProgramFlowView.tsx:141 | the first node is never locked; any other is locked iff the activity before it is not completed |
| ProgramFlowView.GridPosition | src/components/dashboard/ProgramFlowView.tsx:146-149 | nodes sit on a three-column grid, 250 apart across and 200 apart down |
| ProgramFlowView.GridPositionInjective | src/components/dashboard/ProgramFlowView.tsx:146-149 | no two nodes share a position |
| ProgramFlowView.CreateNodes | src/components/dashboard/ProgramFlowView.tsx:139-157 | one node per activity, in order, carrying the activity's id, its grid position and its lock |
| ProgramFlowView.EdgeId | src/components/dashboard/ProgramFlowView.tsx:162 | the edge id is "e", the source id, "-", the target id |
| ProgramFlowView.CreateEdges | src/components/dashboard/ProgramFlowView.tsx:160-172 | one edge per consecutive pair; it is animated and grey iff its source is not completed, green otherwise |
| ProgramFlowView.EdgesFollowLocks | src/components/dashboard/ProgramFlowView.tsx:139-172 | each edge links consecutive nodes, and it is animated iff the node it points to is locked |
| ProgramFlowView.NodeBadge | src/components/dashboard/ProgramFlowView.tsx:105-106 | Completed, Locked and Available are exclusive and follow completion first, then the lock |
| ProgramFlowView.ManualCompleteButton | src/components/dashboard/ProgramFlowView.tsx:124 | "Mark as Complete" appears in the dialog iff the activity is an uncompleted video or audio |
| ProgramFlowView.OpenDialog | src/components/dashboard/ProgramFlowView.tsx:89-131 | a locked node opens no dialog; an open dialog shows the activity's player |
| ProgramFlowView.FirstNodeOpens | src/components/dashboard/ProgramFlowView.tsx:141 | the first node always opens and is never shown as locked |
| ProgramRules.LockRulesAgree | src/components/dashboard/TherapeuticProgram.tsx:85-86 | when orders run 1..n in list order, the list view's lock and the flow view's lock agree |
| ProgramRules.CompletingUnlockedKeepsPrefix | src/pages/HelpPage.tsx:48 | completing an unlocked activity keeps the completed activities a prefix of the program |
| ProgramRules.CompletingOrderUnlockedKeepsPrefix | src/pages/HelpPage.tsx:48 | the same for the list view's order-based lock |
| ProgramRules.UnlockedUncompletedIsNext | src/components/dashboard/TherapeuticProgram.tsx:37 | in a program completed in order, an activity is unlocked and not completed iff it is the next activity |
| ProgramRules.AllTabEnablesOnlyNext | src/components/dashboard/TherapeuticProgram.tsx:79-88 | in the All tab of a program completed in order, only the next activity's button is enabled |
| ProgramRules.AllTabGuardedCompletesOnlyNext | src/components/dashboard/TherapeuticProgram.tsx:79-88 | with the lock applied to the player, an uncompleted card of the All tab offers completion iff it is the next activity |
| ProgramRules.CompletedCountOfPrefix | src/pages/ProgramPage.tsx:21 | when exactly the first k activities are completed, the count is k |
| MockData.MockProgressIsConsistent | src/data/mockData.ts:42-101 | the fixture's stored 40% equals the progress recomputed from its two completed activities out of five |
| MockData.MockLocks | src/data/mockData.ts:42-101 | in the fixture, activity 3 is next and unlocked, and 4 and 5 are locked under both rules |
| MockData.MockCompleteJournal | src/pages/ProgramPage.tsx:14-30 | completing act-3 in the fixture gives 60% |
| MockData.MockLockedWalkCard | src/components/dashboard/TherapeuticProgram.tsx:79-88 | in the All tab the fixture's walk shows Locked and a disabled button, yet its player offers completion; the guarded card offers none |
| MockData.MockCompleteLockedWalk | src/pages/ProgramPage.tsx:14-19 | the handler completes the locked act-4, and the completed activities stop being a prefix |
| JournalActivity.HandleSubmit | src/components/activities/JournalActivity.tsx:17-34 | an entry is refused iff the `length` of its trimmed text, in UTF-16 code units, is below 10 |
| JournalActivity.SavedEntriesHaveContent | src/components/activities/JournalActivity.tsx:17-34 | `onComplete` is called only for entries whose trimmed text has at least 10 code units, hence at least 5 characters, and never for whitespace-only entries |
| JournalActivity.BmpEntryNeedsTenCharacters | src/components/activities/JournalActivity.tsx:18 | for text within the Basic Multilingual Plane, an entry is saved iff its trimmed text has at least 10 characters |
| JournalActivity.FiveAstralCharactersAreSaved | src/components/activities/JournalActivity.tsx:18 | five characters beyond U+FFFF, such as five emoji, are ten code units and are saved |
| JournalActivity.PaddingDoesNotCount | src/components/activities/JournalActivity.tsx:18 | surrounding whitespace never decides whether an entry is saved |
| WalkActivity.SecondsField | src/components/activities/WalkActivity.tsx:62-63 | the seconds are always two digits that read back as the seconds |
| WalkActivity.FormatTime | src/components/activities/WalkActivity.tsx:60-64 | the display is the whole minutes, a colon, and two seconds digits |
| WalkActivity.FormatTimeRoundTrip | src/components/activities/WalkActivity.tsx:60-64 | reading the display back gives minutes·60 + seconds = the elapsed time, with seconds below 60 |
| WalkActivity.WalkSession.constructor | src/components/activities/WalkActivity.tsx:15-17 | the walk starts inactive, unpaused, not counting, at 0 seconds, with no completion |
| WalkActivity.WalkSession.StartShown | src/components/activities/WalkActivity.tsx:81 | Start shows only before the walk begins |
| WalkActivity.WalkSession.PauseShown | src/components/activities/WalkActivity.tsx:81-101 | exactly one of Start, Pause and Resume is offered in every state |
| WalkActivity.WalkSession.CompleteShown | src/components/activities/WalkActivity.tsx:88-112 | Complete shows iff the walk is active, running or paused |
| WalkActivity.WalkSession.Start | src/components/activities/WalkActivity.tsx:31-37 | the walk becomes active and unpaused and starts counting; the time is kept |
| WalkActivity.WalkSession.Pause | src/components/activities/WalkActivity.tsx:39-42 | counting stops and the walk is paused; the time is kept |
| WalkActivity.WalkSession.Resume | src/components/activities/WalkActivity.tsx:44-49 | counting restarts; the time is kept |
| WalkActivity.WalkSession.Tick | src/components/activities/WalkActivity.tsx:34-36 | each tick adds one second, with no cap at the duration |
| WalkActivity.WalkSession.Complete | src/components/activities/WalkActivity.tsx:51-58 | counting stops and `onComplete` is called once; the time and flags are kept |
| BreathingActivity.NextPhase | src/components/activities/BreathingActivity.tsx:45-56 | every phase change moves to a different phase |
| BreathingActivity.PhaseCycleOfFour | src/components/activities/BreathingActivity.tsx:45-56 | the phases form a cycle of four: a phase comes back after four changes and not after one, two or three, and any number of changes reduces modulo four |
| BreathingActivity.PhaseUpdate | src/components/activities/BreathingActivity.tsx:41-60 | one tick of the updater: at 4000 ms the clock restarts at 0 on the phase after the one compared; otherwise the phase stays and the clock gains 100 ms |
| BreathingActivity.Advance | src/components/activities/BreathingActivity.tsx:41-60 | a tick keeps the phase timer a multiple of 100 below 4000; the phase changes iff the timer was at 3900 |
| BreathingActivity.PhaseLastsFourSeconds | src/components/activities/BreathingActivity.tsx:41-60 | a phase holds for 39 ticks and moves on at the 40th |
| BreathingActivity.PhaseEveryFourSeconds | src/components/activities/BreathingActivity.tsx:41-60 | after 40·m ticks the phase has gone m steps around the cycle |
| BreathingActivity.StaleTicks | src/components/activities/BreathingActivity.tsx:41-56 | ticks as written keep the phase timer valid, and whenever the timer is back at 0 the phase shown is the one after the phase captured at start |
| BreathingActivity.StaleBreathingStalls | src/components/activities/BreathingActivity.tsx:45-56 | as written, the phase moves once and then stays on the phase after the starting one |
| BreathingActivity.StaleDiffersFromCycle | src/components/activities/BreathingActivity.tsx:45-56 | eight seconds after starting, the code as written shows hold where the cycle is at exhale |
| BreathingActivity.Instructions | src/components/activities/BreathingActivity.tsx:97-110 | both hold phases show "Hold your breath..." and the other phases do not |
| BreathingActivity.DurationMs | src/components/activities/BreathingActivity.tsx:21 | the duration in milliseconds is a whole number of seconds, 60 per minute |
| BreathingActivity.LastSecondNeverShown | src/components/activities/BreathingActivity.tsx:33-38 | from a total of 0 the interval's last tick is the one numbered 600 per minute, and the render before it shows one second less than the exercise lasts |
| BreathingActivity.BreathingSession.constructor | src/components/activities/BreathingActivity.tsx:14-20 | the exercise starts inactive, on inhale with the phase timer at 0, with total time 0 and nothing shown yet |
| BreathingActivity.BreathingSession.Start | src/components/activities/BreathingActivity.tsx:29-32 | the exercise becomes active and ticking and re-renders with the current total; the clock and the total time are kept |
| BreathingActivity.BreathingSession.Tick | src/components/activities/BreathingActivity.tsx:32-61 | each tick adds 100 ms; when the total reaches the duration the interval stops without touching the phase and without a re-render, so the screen keeps the previous total; otherwise the phase clock advances with the corrected step `Advance`, not the step as written (see "## Findings"), and the new total is rendered |
| BreathingActivity.BreathingSession.Pause | src/components/activities/BreathingActivity.tsx:64-67 | the exercise stops and re-renders; time and phase are kept |
| BreathingActivity.BreathingSession.Complete | src/components/activities/BreathingActivity.tsx:69-77 | the exercise stops and re-renders, and `onComplete` is called once |
| BreathingActivity.BreathingSession.DisplayedSeconds | src/components/activities/BreathingActivity.tsx:133 | the seconds shown are the whole seconds of the total as of the last render; while the interval runs that is the current total, and after the last tick it is 100 ms behind |
| PasswordResetForm.Requirements | src/components/profile/PasswordResetForm.tsx:89-95 | the checklist has five items; the length item counts UTF-16 code units |
| PasswordResetForm.Strength | src/components/profile/PasswordResetForm.tsx:27-35 | the score lies in 0..100; it is 0 iff the password is empty, and 100 when all five criteria hold, the length of 8 counted in UTF-16 code units |
| PasswordResetForm.ShortAstralPasswordIsLongEnough | src/components/profile/PasswordResetForm.tsx:29 | "aB" followed by four characters beyond U+FFFF is six characters but ten code units, so it earns the length points |
| PasswordResetForm.StrengthIsChecklistScore | src/components/profile/PasswordResetForm.tsx:27-95 | the score is the weighted count (25, 25, 25, 15, 10) of the checklist items met, so the cap at 100 never applies |
| PasswordResetForm.StrongIff | src/components/profile/PasswordResetForm.tsx:27-67 | a password scores 60 or more iff it meets all three 25-point criteria, or two of them plus a digit or special character |
| PasswordResetForm.Rate | src/components/profile/PasswordResetForm.tsx:55-59 | Weak iff below 30, Strong iff 60 or more, Medium otherwise |
| PasswordResetForm.RatingText | src/components/profile/PasswordResetForm.tsx:55-59 | each rating has its own text, and the text determines the rating |
| PasswordResetForm.BarColour | src/components/profile/PasswordResetForm.tsx:49-53 | the bar is red, yellow or green exactly when the rating is Weak, Medium or Strong |
| PasswordResetForm.TextColour | src/components/profile/PasswordResetForm.tsx:159 | the rating text, with its comparisons written the other way round, gets the bar's colour |
| PasswordResetForm.PasswordForm.constructor | src/components/profile/PasswordResetForm.tsx:13-25 | the form starts with all three fields empty and strength 0, which is the strength of the empty password |
| PasswordResetForm.PasswordForm.MismatchShown | src/components/profile/PasswordResetForm.tsx:189 | the mismatch warning shows only once something is typed in the confirmation, and then iff it differs from the new password |
| PasswordResetForm.PasswordForm.IsFormValid | src/components/profile/PasswordResetForm.tsx:61-67 | the form is valid iff the current and new passwords are non-empty, the confirmation equals the new password, and the new password rates Strong |
| PasswordResetForm.PasswordForm.HandlePasswordChange | src/components/profile/PasswordResetForm.tsx:37-43 | only the named field changes, and the strength is recomputed only for the new password |
| PasswordResetForm.PasswordForm.ToggleVisibility | src/components/profile/PasswordResetForm.tsx:45-47 | only the named field's visibility flips |
| PasswordResetForm.PasswordForm.HandleUpdatePassword | src/components/profile/PasswordResetForm.tsx:69-87 | an invalid form is left unchanged; a valid one has all three fields cleared and strength 0 |
| PasswordResetForm.ValidFormNeedsStrongPassword | src/components/profile/PasswordResetForm.tsx:61-67 | a submittable new password meets at least two of the length, lower-case and upper-case criteria |
| ProfileUpdateForm.Split | src/components/profile/ProfileUpdateForm.tsx:22-23 | `split(' ')` gives at least one piece; with JoinSplit and SplitJoin this pins the pieces, empty ones included |
| ProfileUpdateForm.SplitFirstPiece | src/components/profile/ProfileUpdateForm.tsx:22-23 | the first piece is a space-free prefix of the string, and it is the only piece iff the string has no space |
| ProfileUpdateForm.SplitPiecesHaveNoSpace | src/components/profile/ProfileUpdateForm.tsx:22-23 | no piece of a split holds a space |
| ProfileUpdateForm.JoinSplit | src/components/profile/ProfileUpdateForm.tsx:22-23 | joining the pieces with single spaces gives the string back |
| ProfileUpdateForm.SplitJoin | src/components/profile/ProfileUpdateForm.tsx:22-23 | splitting a join of space-free pieces gives the pieces back |
| ProfileUpdateForm.InitialFirstName | src/components/profile/ProfileUpdateForm.tsx:22 | the first name is a space-free prefix of the name that is followed by a space, or the whole name iff the name has no space: the text before the first space |
| ProfileUpdateForm.InitialLastName | src/components/profile/ProfileUpdateForm.tsx:23 | the last name is empty when the name has no space, and otherwise it is the first-name piece of the text after the first space |
| ProfileUpdateForm.FullName | src/components/profile/ProfileUpdateForm.tsx:36 | the saved name is empty iff both parts are whitespace only |
| ProfileUpdateForm.TwoWordNameRoundTrip | src/components/profile/ProfileUpdateForm.tsx:22-36 | a two-word name splits into its words and is saved back unchanged |
| ProfileUpdateForm.OneWordNameRoundTrip | src/components/profile/ProfileUpdateForm.tsx:22-36 | a one-word name gets an empty last name and is saved back unchanged |
| ProfileUpdateForm.ExtraPiecesDropped | src/components/profile/ProfileUpdateForm.tsx:22-23 | words after the second are dropped from the form |
| ProfileUpdateForm.InitialAgeField | src/components/profile/ProfileUpdateForm.tsx:24 | the age field is empty iff the profile has no age, and holds digits otherwise |
| ProfileUpdateForm.ParseAge | src/components/profile/ProfileUpdateForm.tsx:39 | an empty field gives undefined; a digit string gives its value; a field starting with neither a digit, a sign nor whitespace gives NaN |
| ProfileUpdateForm.AgeRoundTrip | src/components/profile/ProfileUpdateForm.tsx:24-39 | an age loaded and saved unchanged is the same age |
| ProfileUpdateForm.ProfileForm.constructor | src/components/profile/ProfileUpdateForm.tsx:20-29 | the form starts from the profile's name, its split, its age and assigned doctor, with gender, email and phone empty |
| ProfileUpdateForm.ProfileForm.HandleInputChange | src/components/profile/ProfileUpdateForm.tsx:31-33 | one of the six edited fields (first name, last name, age, gender, email, phone) takes the value and no other field changes; `name` and the assigned doctor keep their values |
| ProfileUpdateForm.ProfileForm.SaveChanges | src/components/profile/ProfileUpdateForm.tsx:35-40 | the payload holds only the joined, trimmed name and the age, which is undefined iff the field is empty |
| DoctorSearch.Matches | src/components/dashboard/DoctorSearch.tsx:33-37 | the filter's condition on one doctor; an empty term matches every doctor |
| DoctorSearch.FilterDoctors | src/components/dashboard/DoctorSearch.tsx:32-38 | the result holds only matching doctors, every matching doctor appears in it, and it is a sub-sequence of the list |
| DoctorSearch.FilterDoctorsKeepsCopies | src/components/dashboard/DoctorSearch.tsx:32-38 | each matching doctor occurs in the result exactly as often as in the list and a non-matching one never; with the sub-sequence property this fixes the result |
| DoctorSearch.EmptyTermKeepsAll | src/components/dashboard/DoctorSearch.tsx:32-38 | an empty search lists every doctor |
| DoctorSearch.SearchIgnoresCase | src/components/dashboard/DoctorSearch.tsx:33 | searching for a term or its lower-case form lists the same doctors |
| DoctorSearch.InvitationControl | src/components/dashboard/DoctorSearch.tsx:50-89 | pending shows Pending, accepted shows Connected, none or missing offers the invitation |
| DoctorSearch.SendSelected | src/components/dashboard/DoctorSearch.tsx:40-48 | with no selected doctor nothing is sent; otherwise the selected doctor's id is sent |
| DoctorSearch.NoDoctorsMessage | src/components/dashboard/DoctorSearch.tsx:138 | "No doctors found" shows iff no doctor matches |
| DoctorsPage.HandleSendInvitation | src/pages/DoctorsPage.tsx:12-18 | doctors with the id become pending; nothing else changes; length and order are kept |
| DoctorsPage.SendTwiceIsSendOnce | src/pages/DoctorsPage.tsx:13-17 | sending the same invitation twice equals sending it once |
| DoctorsPage.UnknownIdChangesNothing | src/pages/DoctorsPage.tsx:13-17 | an id not on the list changes nothing |
| DoctorsPage.AcceptedBecomesPending | src/pages/DoctorsPage.tsx:15 | there is no guard: a connected doctor shows as pending again |
| DoctorsPage.SendCommutesWithSearch | src/pages/DoctorsPage.tsx:13-17 | sending an invitation does not change which doctors a search lists |

## Left out

- Rendering, styling, icons, animation, toasts, `console.log` and the charts are left out. They change no state the model describes.
- Timers are left out. Each `setInterval` callback is a `Tick` method that may only be called while the interval runs. Unmount cleanup and React's batching of state updates are not modelled.
- ProgramPage.RoundedPercent: computes the exact rational and rounds halves up. In double precision, `(completed / total) * 100` can fall just below a half. For 23 of 40 activities it is 57.49999999999999, which rounds to 57, where the model gives 58.
- The flow view receives `program`/`onMarkComplete` from src/pages/ProgramPage.tsx:61 but declares `activities`/`onActivityComplete`. The model takes the activity list directly.
- The xyflow node and edge state, `onConnect`, and the dialog's open flag are left out. The model covers which dialog a click opens, not the dialog's lifetime.
- `getIcon` (ActivityItem, ProgramFlowView), the Show/Hide Details toggle, the breathing circle size `getCircleSize` and the walk `progressPercentage` are left out. They are display values computed in floating point.
- AsciiText.Trim and AsciiText.ToLower: handle ASCII whitespace and ASCII letters only. JavaScript's Unicode whitespace and case mapping are not modelled.
- ProfileUpdateForm.ParseAge: reads only leading decimal digits; a field starting with a sign or whitespace gives NaN in the model, where `parseInt` may give a number. Like `parseInt`, it stops at a decimal point or an exponent, so "12.5" gives 12 and "1e3" gives 1.
- UserProfile.age is a whole number of years. A negative or fractional age, and its `toString`, are not modelled.
- Activity durations are integers. A `NaN` duration is not modelled.
- Activity orders are integers. In the source `order` is a `number`, so a fractional order is possible; it is not modelled.
- WalkActivity.WalkSession.Start, Pause, Resume and Complete, and BreathingActivity.BreathingSession.Start, require the state in which their button is shown (`StartShown`, `PauseShown`, `isPaused`, `CompleteShown`). The handlers are reachable only through those buttons.
- BreathingActivity.BreathingSession.Tick: steps the phase clock with the corrected `Advance`, which compares the phase on display. The source's interval compares the phase captured when the exercise started; that behaviour is modelled separately as `StaleTicks` (see "## Findings").
- The form fields are named by enumerations rather than by arbitrary strings. The password form's handlers are called with `current`, `new` and `confirm` only. The profile form's `handleInputChange` is called with `firstName`, `lastName`, `age`, `gender`, `email` and `phone` only (`EditableField`); the assigned doctor's input is read-only, and `name` is never edited.
- The mock data generators for health data and feedback are not part of this model.
- The image-upload stub of the profile form only shows a toast, so it is not modelled.

## Findings

| source | as written | input that shows it | evidently intended | confidence | as-written member | corrected member |
|---|---|---|---|---|---|---|
| src/components/activities/BreathingActivity.tsx:41-56 | the interval callback closes over the `currentPhase` of the render that started it, so every phase change moves to the phase after the starting one | start with inhale and let 80 ticks (8 s) pass: the screen still shows hold where the cycle has reached exhale | each change moves to the phase after the one on display, going round inhale, hold, exhale, hold every 16 s | not executed | BreathingActivity.StaleBreathingStalls | BreathingActivity.PhaseEveryFourSeconds |
| src/components/dashboard/ActivityItem.tsx:71-75 | `disabled` reaches only the button and the Locked badge; the journal, walk and breathing players under "Show Details" call `onMarkComplete` whatever `disabled` says | in the All tab of the fixture, act-4 (a walk) is locked behind the uncompleted act-3, yet completing its walk player marks act-4 complete and breaks the order | a locked card offers no way to complete its activity, so activities are completed in order, as the flow view enforces and the help page states | not executed | ActivityItem.LockedCardStillCompletes | ProgramRules.AllTabGuardedCompletesOnlyNext |
