/** The event records of the student dashboard's sample data
    (data/mockData.jsx), and the two tests its views apply to them against
    the current instant. */
module MockEvents {
  /** `date` is the instant the "YYYY-MM-DD" string parses to; an event
      without a `completed` flag is not completed. */
  datatype MockEvent = MockEvent(
    id: int, title: string, description: string, date: int, category: string, completed: bool)

  /** Not flagged completed and not yet begun. */
  predicate IsLive(e: MockEvent, now: int) {
    !e.completed && e.date >= now
  }

  function Live(now: int): MockEvent -> bool {
    (e: MockEvent) => IsLive(e, now)
  }

  /** Flagged completed or already begun. */
  predicate IsOver(e: MockEvent, now: int) {
    e.completed || e.date < now
  }

  function Over(now: int): MockEvent -> bool {
    (e: MockEvent) => IsOver(e, now)
  }

  lemma LiveOverComplement(now: int)
    ensures forall e :: Over(now)(e) == !Live(now)(e)
  {
  }
}
