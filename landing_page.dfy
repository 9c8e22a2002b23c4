/** The public landing page (EOCLandingPage.jsx): the split of fetched
    events into upcoming and past, the description preview and the image
    fallback. */
module LandingPage {
  import opened Wrappers
  import opened Seqs
  import opened Text
  import opened ClientEvents
  import EventSchema

  /** The upcoming list: current events, in fetched order. */
  function UpcomingEvents(events: seq<ApiEvent>, now: int): seq<ApiEvent> {
    Filter(Current(now), events)
  }

  /** The past list: events whose day has passed or that are completed. */
  function PastEvents(events: seq<ApiEvent>, now: int): seq<ApiEvent> {
    Filter(Past(now), events)
  }

  /** Every fetched event is on exactly one list, and both lists keep the
      fetched order. */
  lemma Partition(events: seq<ApiEvent>, now: int)
    ensures multiset(UpcomingEvents(events, now)) + multiset(PastEvents(events, now)) == multiset(events)
    ensures |UpcomingEvents(events, now)| + |PastEvents(events, now)| == |events|
    ensures forall e :: e in events ==> (e in UpcomingEvents(events, now) <==> e !in PastEvents(events, now))
    ensures IsSubseq(UpcomingEvents(events, now), events) && IsSubseq(PastEvents(events, now), events)
  {
    CurrentPastComplement(now);
    FilterSplit(Current(now), Past(now), events);
    FilterIsSubseq(Current(now), events);
    FilterIsSubseq(Past(now), events);
  }

  const PreviewLength: nat := 100

  /** The first hundred characters of the description, then "..." exactly
      when it is longer; nothing for a missing description. */
  function Preview(description: Option<string>): (r: string)
    ensures description.None? ==> r == ""
    ensures description.Some? && |description.value| <= PreviewLength ==> r == description.value
    ensures description.Some? && |description.value| > PreviewLength ==>
      |r| == PreviewLength + 3 && r[..PreviewLength] == description.value[..PreviewLength]
      && r[PreviewLength..] == "..."
  {
    if description.None? then ""
    else
      var d := description.value;
      (if |d| <= PreviewLength then d else d[..PreviewLength]) + (if |d| > PreviewLength then "..." else "")
  }

  /** `getEventImage`: the event's own image when truthy, else the same
      placeholder the schema stores by default. */
  function EventImage(e: ApiEvent): (url: string)
    ensures Truthy(e.image) ==> url == e.image.value
    ensures !Truthy(e.image) ==> url == EventSchema.DefaultImage
    ensures |url| > 0
  {
    if Truthy(e.image) then e.image.value else EventSchema.DefaultImage
  }
}
