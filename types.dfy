/** Entities of the patient dashboard (src/types/index.ts). */
module Types {

  datatype Option<+T> = None | Some(value: T)

  /** The optional status of an invitation sent to a doctor: 'none' | 'pending' | 'accepted'. */
  datatype InvitationStatus = NotInvited | Pending | Accepted

  datatype Doctor = Doctor(
    id: string,
    name: string,
    speciality: string,
    imageUrl: string,
    invitationStatus: Option<InvitationStatus>)

  /** The five kinds of therapeutic activity. */
  datatype ActivityType = Video | Audio | Journal | Walk | Breathing

  const AllActivityTypes: seq<ActivityType> := [Video, Audio, Journal, Walk, Breathing]

  /** `duration` is in minutes and optional; `order` is the 1-based place in the program. */
  datatype Activity = Activity(
    id: string,
    title: string,
    description: string,
    kind: ActivityType,
    completed: bool,
    content: string,
    duration: Option<int>,
    order: int)

  /** A percentage as JavaScript computes it: a whole number, or NaN for 0/0. */
  datatype Percent = Pct(value: int) | NaN

  /** The patient's profile. The age is a whole number of years when present. */
  datatype UserProfile = UserProfile(
    id: string,
    name: string,
    imageUrl: string,
    age: Option<nat>,
    background: Option<string>,
    assignedDoctorId: Option<string>,
    assignedDoctorName: Option<string>)

  datatype DoctorRef = DoctorRef(doctorId: string, doctorName: string)

  datatype Program = Program(
    id: string,
    name: string,
    description: string,
    activities: seq<Activity>,
    progress: Percent,
    assignedBy: DoctorRef)

  /** The documented range of `Program.progress`. */
  predicate ProgressInRange(p: Program) {
    p.progress.Pct? && 0 <= p.progress.value <= 100
  }

  datatype Direction = Up | Down

  datatype Improvement = Improvement(metric: string, percentage: real, direction: Direction)

  datatype AIFeedback = AIFeedback(summary: string, improvements: seq<Improvement>, suggestions: seq<string>)

  /** Every activity type is one of exactly five distinct values. */
  lemma ActivityTypesAreFive(t: ActivityType)
    ensures t in AllActivityTypes
    ensures |AllActivityTypes| == 5
    ensures forall i, j :: 0 <= i < j < 5 ==> AllActivityTypes[i] != AllActivityTypes[j]
  {
  }
}
