/**
  One activity card of the list view (src/components/dashboard/ActivityItem.tsx):
  its type label, the badges it shows, its "Mark as Complete" button and
  the activity player it embeds.
*/
module ActivityItem {
  import opened Types

  /** `getTypeLabel`: the fallback label "Activity" is never shown. */
  function TypeLabel(t: ActivityType): (text: string)
    ensures text != "Activity"
  {
    match t
    case Video => "Watch Video"
    case Audio => "Listen to Audio"
    case Journal => "Journal Entry"
    case Walk => "Walking Activity"
    case Breathing => "Breathing Exercise"
  }

  /** Different activity types carry different labels. */
  lemma TypeLabelInjective(t1: ActivityType, t2: ActivityType)
    ensures TypeLabel(t1) == TypeLabel(t2) ==> t1 == t2
  {
  }

  /** The optional props of the card. */
  datatype ItemProps = ItemProps(disabled: bool, showCompleteButton: bool)

  /** The props a caller gets by leaving both out. */
  const DefaultProps := ItemProps(disabled := false, showCompleteButton := true)

  /** `duration || fallback`: a missing or zero duration falls back. */
  function DurationOr(duration: Option<int>, fallback: int): (minutes: int)
    ensures duration == None || duration == Some(0) ==> minutes == fallback
    ensures duration.Some? && duration.value != 0 ==> minutes == duration.value
  {
    match duration
    case Some(d) => if d != 0 then d else fallback
    case None => fallback
  }

  /** The activity player embedded in the card. */
  datatype Player =
    | VideoPlayer(url: string)
    | AudioPlayer(url: string)
    | JournalEditor(activityId: string)
    | WalkTimer(minutes: int)
    | BreathingTimer(minutes: int)

  /** `renderActivityContent`: walks default to 15 minutes, breathing to 5. */
  function RenderPlayer(a: Activity): (p: Player)
    ensures a.kind == Video <==> p.VideoPlayer?
    ensures a.kind == Audio <==> p.AudioPlayer?
    ensures a.kind == Journal <==> p == JournalEditor(a.id)
    ensures a.kind == Walk <==> p == WalkTimer(DurationOr(a.duration, 15))
    ensures a.kind == Breathing <==> p == BreathingTimer(DurationOr(a.duration, 5))
  {
    match a.kind
    case Video => VideoPlayer(a.content)
    case Audio => AudioPlayer(a.content)
    case Journal => JournalEditor(a.id)
    case Walk => WalkTimer(DurationOr(a.duration, 15))
    case Breathing => BreathingTimer(DurationOr(a.duration, 5))
  }

  datatype Button = Hidden | Enabled | Disabled

  /** The players whose own completion calls `onMarkComplete(activity.id)`: the
      journal, walk and breathing players; the video and audio players have none. */
  predicate ReportsCompletion(p: Player) {
    p.JournalEditor? || p.WalkTimer? || p.BreathingTimer?
  }

  /**
    What the card shows: its badges, its "Mark as Complete" button, the player
    under "Show Details", and whether that player's completion reaches
    `onMarkComplete`.
  */
  datatype ItemView = ItemView(completedBadge: bool, lockedBadge: bool, completeButton: Button,
                               player: Player, playerCompletes: bool)

  /** The card offers some way to mark its activity complete. */
  predicate OffersCompletion(v: ItemView) {
    v.completeButton == Enabled || v.playerCompletes
  }

  /**
    The card as rendered. `disabled` reaches only the button and the Locked
    badge: the player is rendered whatever the props, and its completion is
    wired to `onMarkComplete` without looking at `disabled`.
  */
  function Render(a: Activity, props: ItemProps): (v: ItemView)
    ensures v.completedBadge <==> a.completed
    ensures v.lockedBadge <==> props.disabled && !a.completed
    ensures v.completeButton != Hidden <==> !a.completed && props.showCompleteButton
    ensures v.completeButton == Disabled <==> !a.completed && props.showCompleteButton && props.disabled
    ensures v.player == RenderPlayer(a)
    ensures v.playerCompletes <==> a.kind == Journal || a.kind == Walk || a.kind == Breathing
  {
    var player := RenderPlayer(a);
    ItemView(
      completedBadge := a.completed,
      lockedBadge := props.disabled && !a.completed,
      completeButton :=
        if a.completed || !props.showCompleteButton then Hidden
        else if props.disabled then Disabled
        else Enabled,
      player := player,
      playerCompletes := ReportsCompletion(player))
  }

  /** A locked journal, walk or breathing card shows the Locked badge and no enabled
      button, yet its player still marks the activity complete. */
  lemma LockedCardStillCompletes(a: Activity, props: ItemProps)
    requires props.disabled && !a.completed
    requires a.kind == Journal || a.kind == Walk || a.kind == Breathing
    ensures Render(a, props).lockedBadge
    ensures Render(a, props).completeButton != Enabled
    ensures OffersCompletion(Render(a, props))
  {
  }

  /**
    The card with the lock applied to the player as well: a disabled card's
    player does not report completion. Otherwise it is the card as rendered.
  */
  function RenderGuarded(a: Activity, props: ItemProps): (v: ItemView)
    ensures props.disabled ==> !OffersCompletion(v)
    ensures !props.disabled ==> v == Render(a, props)
    ensures v.lockedBadge == Render(a, props).lockedBadge
    ensures v.completeButton == Render(a, props).completeButton
  {
    var v := Render(a, props);
    v.(playerCompletes := v.playerCompletes && !props.disabled)
  }

  /** A card never shows both the Completed and the Locked badge, and a
      completed activity never offers its button. */
  lemma BadgesExclusive(a: Activity, props: ItemProps)
    ensures !(Render(a, props).completedBadge && Render(a, props).lockedBadge)
    ensures a.completed ==> Render(a, props).completeButton == Hidden
  {
  }

  /** With the default props, an uncompleted activity offers an enabled button. */
  lemma DefaultPropsOfferButton(a: Activity)
    ensures Render(a, DefaultProps).completeButton == (if a.completed then Hidden else Enabled)
    ensures !Render(a, DefaultProps).lockedBadge
  {
  }
}
