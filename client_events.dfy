/** An event as the browser receives it from the server's event endpoints,
    and the day-granular test the components share: an event is current
    while its calendar day has not passed and it is not marked completed. */
module ClientEvents {
  import opened Wrappers
  import opened Clock

  /** A participant entry as the roster endpoint populates it. */
  datatype Person = Person(name: Option<string>, email: Option<string>, year: Option<string>)

  /** An event in the JSON the server sends: `date` as an instant,
      `participants` absent when the list is not sent. */
  datatype ApiEvent = ApiEvent(
    id: string,
    name: string,
    theme: Option<string>,
    description: Option<string>,
    category: string,
    date: int,
    status: string,
    registrationRequired: bool,
    image: Option<string>,
    participants: Option<seq<Person>>)

  /** The event's day is today or later and it is not marked completed. */
  predicate IsCurrent(e: ApiEvent, now: int) {
    DayOf(e.date) >= DayOf(now) && e.status != "completed"
  }

  /** Named form of `IsCurrent` at a fixed clock reading, for filters. */
  function Current(now: int): ApiEvent -> bool {
    e => IsCurrent(e, now)
  }

  /** The event's day has passed or it is marked completed. */
  predicate IsPast(e: ApiEvent, now: int) {
    DayOf(e.date) < DayOf(now) || e.status == "completed"
  }

  function Past(now: int): ApiEvent -> bool {
    e => IsPast(e, now)
  }

  /** The two tests are complements: every event is exactly one of them. */
  lemma CurrentPastComplement(now: int)
    ensures forall e :: Past(now)(e) == !Current(now)(e)
  {
  }

  /** Registration is open when the event requires it and is current. */
  predicate IsRegistrationOpen(e: ApiEvent, now: int) {
    e.registrationRequired && IsCurrent(e, now)
  }
}
