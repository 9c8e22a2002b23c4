/** The event card (EventCard.jsx): whether registration is open, the
    category colour, the status badge and the action it shows. */
module EventCard {
  import opened Wrappers
  import opened Clock
  import opened ClientEvents
  import EventSchema
  import EventController

  /** The card's category palette. */
  const Palette: map<string, string> := map[
    "dance" := "#9f7aea", "hackathon" := "#4299e1", "workshop" := "#48bb78",
    "competition" := "#ed8936", "festival" := "#f56565", "other" := "#718096",
    "Cultural & Sports Fest" := "#ed64a6", "National Festival" := "#f56565",
    "Academic & Cultural Support" := "#4299e1", "Health & Social Welfare" := "#48bb78",
    "Wellness & Personal Development" := "#9f7aea", "Academic Workshop" := "#4299e1",
    "Project Exhibition" := "#ed8936"]

  const Fallback: string := "#718096"

  /** `colors[category] || colors.other`. */
  function CategoryColor(category: string): (c: string)
    ensures category in Palette ==> c == Palette[category]
    ensures category !in Palette ==> c == Fallback
  {
    if category in Palette then Palette[category] else Palette["other"]
  }

  /** The palette names every category the schema admits, so a stored
      event never falls back to grey unless its category is "other". */
  lemma PaletteCoversSchema()
    ensures forall c :: c in EventSchema.Categories ==> c in Palette
    ensures forall c :: c in EventSchema.Categories && c != "other" ==> CategoryColor(c) != Fallback
  {
  }

  /** What the action area shows. */
  datatype Action = NoRegistrationRequired | Register | Registered | RegistrationClosed

  /** The card's nested choice: no registration, then open and not yet
      registered, then open and registered, else closed. */
  function CardAction(e: ApiEvent, isRegistered: bool, now: int): (a: Action)
    ensures a == NoRegistrationRequired <==> !e.registrationRequired
    ensures a == Register <==> IsRegistrationOpen(e, now) && !isRegistered
    ensures a == Registered <==> IsRegistrationOpen(e, now) && isRegistered
    ensures a == RegistrationClosed <==> e.registrationRequired && !IsRegistrationOpen(e, now)
  {
    if e.registrationRequired then
      if IsRegistrationOpen(e, now) then
        if !isRegistered then Register else Registered
      else RegistrationClosed
    else NoRegistrationRequired
  }

  /** The badge the card shows for the stored status, if any. */
  function StatusBadge(status: string): (b: Option<string>)
    ensures b.Some? <==> status == "upcoming" || status == "completed"
    ensures status == "upcoming" ==> b == Some("Upcoming")
    ensures status == "completed" ==> b == Some("Completed")
  {
    if status == "upcoming" then Some("Upcoming")
    else if status == "completed" then Some("Completed")
    else None
  }

  /** For an event that requires registration, the card offers registration
      exactly when the server would not refuse it as closed: the two tests
      are negations of each other at the same clock reading. */
  lemma OpenIsNotClosed(stored: EventSchema.Event, e: ApiEvent, now: int)
    requires e.date == stored.date && e.status == stored.status && e.registrationRequired
    ensures IsRegistrationOpen(e, now) <==> !EventController.IsClosed(stored, now)
  {
  }
}
