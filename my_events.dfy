/** The student's own events (MyEvents.jsx): which fetched events are
    registered, and their split into upcoming and completed. */
module MyEvents {
  import opened Seqs
  import opened Text
  import opened Wrappers
  import opened ClientEvents

  /** An entry of the registered list: a bare id, or a populated object
      whose `_id` may be missing. */
  datatype RegEntry = Raw(id: string) | Obj(oid: Option<string>)

  /** The string an entry is compared by: the object's `_id` when it is
      truthy, otherwise the entry itself, and an object's string form is
      "[object Object]". */
  function EntryKey(r: RegEntry): string {
    match r
    case Raw(id) => id
    case Obj(oid) => if Truthy(oid) then oid.value else "[object Object]"
  }

  /** `isEventRegistered`. */
  predicate IsEventRegistered(entries: seq<RegEntry>, eventId: string) {
    exists i :: 0 <= i < |entries| && EntryKey(entries[i]) == eventId
  }

  /** Both kinds of entry find the event they name. */
  lemma EntryFindsEvent(entries: seq<RegEntry>, eventId: string)
    requires |eventId| > 0
    ensures Raw(eventId) in entries ==> IsEventRegistered(entries, eventId)
    ensures Obj(Some(eventId)) in entries ==> IsEventRegistered(entries, eventId)
  {
    if Raw(eventId) in entries {
      var i :| 0 <= i < |entries| && entries[i] == Raw(eventId);
      assert EntryKey(entries[i]) == eventId;
    }
    if Obj(Some(eventId)) in entries {
      var i :| 0 <= i < |entries| && entries[i] == Obj(Some(eventId));
      assert EntryKey(entries[i]) == eventId;
    }
  }

  function Registered(entries: seq<RegEntry>): ApiEvent -> bool {
    (e: ApiEvent) => IsEventRegistered(entries, e.id)
  }

  /** `registeredEvents`: the fetched events whose id is registered, in
      fetched order. */
  function RegisteredEvents(events: seq<ApiEvent>, entries: seq<RegEntry>): (r: seq<ApiEvent>)
    ensures forall e :: e in r <==> e in events && IsEventRegistered(entries, e.id)
    ensures IsSubseq(r, events)
    ensures forall e :: multiset(r)[e] == if IsEventRegistered(entries, e.id) then multiset(events)[e] else 0
  {
    FilterIsSubseq(Registered(entries), events);
    FilterCounts(Registered(entries), events);
    Filter(Registered(entries), events)
  }

  /** `separateEvents`: each registered event goes to the upcoming list when
      its day has not passed and it is not completed, else to completed. */
  method SeparateEvents(registered: seq<ApiEvent>, now: int) returns (upcoming: seq<ApiEvent>, completed: seq<ApiEvent>)
    ensures upcoming == Filter(Current(now), registered)
    ensures completed == Filter(Past(now), registered)
    ensures |upcoming| + |completed| == |registered|
    ensures multiset(upcoming) + multiset(completed) == multiset(registered)
  {
    upcoming, completed := [], [];
    var i := 0;
    while i < |registered|
      invariant 0 <= i <= |registered|
      invariant upcoming == Filter(Current(now), registered[..i])
      invariant completed == Filter(Past(now), registered[..i])
    {
      var e := registered[i];
      FilterStep(Current(now), registered, i);
      FilterStep(Past(now), registered, i);
      if IsCurrent(e, now) {
        upcoming := upcoming + [e];
      } else {
        completed := completed + [e];
      }
      i := i + 1;
    }
    assert registered[..|registered|] == registered;
    CurrentPastComplement(now);
    FilterSplit(Current(now), Past(now), registered);
  }

  /** Only events on the upcoming list carry an Unregister button, and each
      of them is current. */
  lemma UnregisterOnlyUpcoming(registered: seq<ApiEvent>, now: int, e: ApiEvent)
    requires e in Filter(Current(now), registered)
    ensures IsCurrent(e, now) && e !in Filter(Past(now), registered)
  {
  }

  /** "You are registered for N event", plural unless N is 1. */
  function Subtitle(n: nat): (s: string)
    ensures |s| > 23 && s[..23] == "You are registered for "
    ensures s[|s| - 1] == 's' <==> n != 1
    ensures ShowsCount(s, 23, Decimal(n), "event")
  {
    PrefixCounted("You are registered for ", n, "event");
    "You are registered for " + Counted(n, "event")
  }
}
