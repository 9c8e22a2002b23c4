/** The student's home tab (HomeOverview.jsx): the next three live events
    and two counters. */
module HomeOverview {
  import opened Seqs
  import opened MockEvents

  const PreviewCount: nat := 3

  /** The first three live events, in list order. */
  function UpcomingEvents(events: seq<MockEvent>, now: int): (r: seq<MockEvent>)
    ensures |r| <= PreviewCount && |r| <= |Filter(Live(now), events)|
    ensures r == Filter(Live(now), events)[..|r|]
    ensures |r| == PreviewCount || r == Filter(Live(now), events)
  {
    var live := Filter(Live(now), events);
    if |live| <= PreviewCount then live else live[..PreviewCount]
  }

  /** The number of registered event ids, duplicates included. */
  function RegisteredCount(registeredEventIds: seq<int>): nat {
    |registeredEventIds|
  }

  /** The number of events flagged completed or already begun. */
  function CompletedCount(events: seq<MockEvent>, now: int): nat {
    |Filter(Over(now), events)|
  }

  /** Live and over are complements: the live count before the slice and
      the completed count add up to the number of events. */
  lemma CountsAddUp(events: seq<MockEvent>, now: int)
    ensures |Filter(Live(now), events)| + CompletedCount(events, now) == |events|
  {
    LiveOverComplement(now);
    FilterSplit(Live(now), Over(now), events);
  }
}
