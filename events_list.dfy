/** The student's event browser (EventsList.jsx): live events, narrowed by
    a search term and a category. */
module EventsList {
  import opened Seqs
  import opened Text
  import opened MockEvents

  /** The term, lower-cased, occurs in the lower-cased title or description. */
  predicate TermMatches(e: MockEvent, term: string) {
    Contains(Lower(e.title), Lower(term)) || Contains(Lower(e.description), Lower(term))
  }

  function Term(term: string): MockEvent -> bool {
    (e: MockEvent) => TermMatches(e, term)
  }

  function InCategory(category: string): MockEvent -> bool {
    (e: MockEvent) => e.category == category
  }

  /** Live, and matching the term when there is one. */
  function LiveMatching(now: int, term: string): MockEvent -> bool {
    (e: MockEvent) => IsLive(e, now) && (term != [] ==> TermMatches(e, term))
  }

  /** The combined test an event passes to be shown. */
  predicate Shown(e: MockEvent, now: int, term: string, category: string) {
    IsLive(e, now) && (term != [] ==> TermMatches(e, term)) && (category != "All" ==> e.category == category)
  }

  function Keep(now: int, term: string, category: string): MockEvent -> bool {
    (e: MockEvent) => Shown(e, now, term, category)
  }

  /** The effect's successive filters: live events first, then the search,
      then the category unless it is "All". */
  method VisibleEvents(events: seq<MockEvent>, now: int, term: string, category: string)
    returns (filtered: seq<MockEvent>)
    ensures filtered == Filter(Keep(now, term, category), events)
    ensures forall e :: e in filtered <==> e in events && Shown(e, now, term, category)
    ensures IsSubseq(filtered, events)
  {
    filtered := Filter(Live(now), events);
    if term != [] {
      filtered := Filter(Term(term), filtered);
      FilterTwice(Live(now), Term(term), LiveMatching(now, term), events);
    } else {
      FilterCongruent(Live(now), LiveMatching(now, term), events);
    }
    assert filtered == Filter(LiveMatching(now, term), events);
    if category != "All" {
      filtered := Filter(InCategory(category), filtered);
      FilterTwice(LiveMatching(now, term), InCategory(category), Keep(now, term, category), events);
    } else {
      FilterCongruent(LiveMatching(now, term), Keep(now, term, category), events);
    }
    FilterIsSubseq(Keep(now, term, category), events);
  }

  /** A card is marked registered when its id is among the registered ids. */
  predicate IsRegistered(registeredEventIds: seq<int>, e: MockEvent) {
    e.id in registeredEventIds
  }

  /** "Showing N event", plural unless N is 1. */
  function ResultsText(n: nat): (s: string)
    ensures |s| > 8 && s[..8] == "Showing "
    ensures s[|s| - 1] == 's' <==> n != 1
    ensures ShowsCount(s, 8, Decimal(n), "event")
  {
    PrefixCounted("Showing ", n, "event");
    "Showing " + Counted(n, "event")
  }
}
