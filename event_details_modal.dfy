/** The event details modal (EventDetailsModal.jsx): its completed overlay,
    which compares full instants, its smaller colour palette and its action
    button. */
module EventDetailsModal {
  import opened Wrappers
  import opened Clock
  import opened ClientEvents
  import EventCard
  import EventSchema

  /** The overlay test: marked completed, or the event's instant already
      passed, with no truncation to the day. */
  predicate IsCompleted(e: ApiEvent, now: int) {
    e.status == "completed" || e.date < now
  }

  /** Earlier on the same day the overlay says "Completed" while the
      registration button is still live. */
  lemma CompletedWhileOpen(e: ApiEvent, now: int)
    requires e.registrationRequired && e.status == "upcoming"
    requires e.date < now && DayOf(e.date) == DayOf(now)
    ensures IsCompleted(e, now) && IsRegistrationOpen(e, now)
  {
  }

  /** The converse never happens: an event the overlay does not call
      completed is still open when it requires registration. */
  lemma NotCompletedIsOpen(e: ApiEvent, now: int)
    requires e.registrationRequired && !IsCompleted(e, now)
    ensures IsRegistrationOpen(e, now)
  {
    DayOfMonotone(now, e.date);
  }

  /** The modal's palette knows six keys. */
  const Palette: map<string, string> := map[
    "dance" := "#9f7aea", "hackathon" := "#4299e1", "workshop" := "#48bb78",
    "competition" := "#ed8936", "festival" := "#f56565", "other" := "#718096"]

  function CategoryColor(category: string): (c: string)
    ensures category in Palette ==> c == Palette[category]
    ensures category !in Palette ==> c == "#718096"
  {
    if category in Palette then Palette[category] else Palette["other"]
  }

  /** On the six original categories the modal and the card agree; on the
      seven added to the schema later the modal shows grey where the card
      shows a colour. */
  lemma PalettesDisagree()
    ensures forall c :: c in Palette ==> CategoryColor(c) == EventCard.CategoryColor(c)
    ensures forall c :: c in EventSchema.Categories && c !in Palette ==>
      CategoryColor(c) == "#718096" && EventCard.CategoryColor(c) != "#718096"
  {
  }

  /** The modal's button choice, keyed like the card's. */
  function ModalAction(e: ApiEvent, isRegistered: bool, now: int): (a: EventCard.Action)
    ensures a == EventCard.CardAction(e, isRegistered, now)
  {
    if !e.registrationRequired then EventCard.NoRegistrationRequired
    else if !IsRegistrationOpen(e, now) then EventCard.RegistrationClosed
    else if isRegistered then EventCard.Registered
    else EventCard.Register
  }
}
