/** The student dashboard's state (StudentDashboard.jsx): the registered
    event ids and the notification list, and the handlers that rebuild
    them. The notification stamp and today's date are passed in. */
module StudentDashboard {
  import opened Wrappers
  import opened Seqs
  import opened MockEvents
  import opened Notifications

  /** `events.find(e => e.id === eventId)`: the first event with that id. */
  function FindEvent(events: seq<MockEvent>, eventId: int): (r: Option<MockEvent>)
    ensures r.None? <==> forall i :: 0 <= i < |events| ==> events[i].id != eventId
    ensures r.Some? ==> r.value.id == eventId
    ensures r.Some? ==>
      exists i :: (0 <= i < |events| && events[i] == r.value && forall j :: 0 <= j < i ==> events[j].id != eventId)
  {
    if events == [] then None
    else if events[0].id == eventId then
      assert events[0] == events[0];
      Some(events[0])
    else
      var r := FindEvent(events[1..], eventId);
      if r.Some? then
        var i :| 0 <= i < |events[1..]| && events[1..][i] == r.value
          && r.value.id == eventId && forall j :: 0 <= j < i ==> events[1..][j].id != eventId;
        assert events[i + 1] == r.value;
        r
      else r
  }

  /** The confirmation pushed for a new registration: titled "Registration
      Confirmed", dated today, with a message that names the event between
      a fixed opening and a fixed close. */
  function Confirmation(stamp: int, today: string, e: MockEvent): (n: Notification)
    ensures !n.read && n.kind == "success" && n.id == stamp
    ensures n.title == "Registration Confirmed" && n.date == today
    ensures var m, k := n.message, |e.title|;
      |m| == 42 + k && m[..22] == "Your registration for " && m[22..22 + k] == e.title
      && m[22 + k..] == " has been confirmed."
  {
    var m := "Your registration for " + e.title + " has been confirmed.";
    assert m[22..22 + |e.title|] == e.title;
    Notification(stamp, "Registration Confirmed", m, today, false, "success")
  }

  /** `handleMarkAsRead`'s map: notifications with the id become read. */
  function MarkRead(ns: seq<Notification>, id: int): (r: seq<Notification>)
    ensures |r| == |ns|
    ensures forall i :: 0 <= i < |ns| && ns[i].id == id ==> r[i] == ns[i].(read := true)
    ensures forall i :: 0 <= i < |ns| && ns[i].id != id ==> r[i] == ns[i]
  {
    seq(|ns|, i requires 0 <= i < |ns| => if ns[i].id == id then ns[i].(read := true) else ns[i])
  }

  function HasId(id: int): Notification -> bool {
    (n: Notification) => n.id == id
  }

  function OtherId(id: int): Notification -> bool {
    (n: Notification) => n.id != id
  }

  /** `handleDeleteNotification`'s filter: exactly the notifications with the
      id go; the rest stay in order. */
  function DeleteNotification(ns: seq<Notification>, id: int): (r: seq<Notification>)
    ensures forall n :: n in r <==> n in ns && n.id != id
    ensures IsSubseq(r, ns)
    ensures |r| + |Filter(HasId(id), ns)| == |ns|
  {
    FilterIsSubseq(OtherId(id), ns);
    FilterSplit(OtherId(id), HasId(id), ns);
    Filter(OtherId(id), ns)
  }

  class Dashboard {
    const events: seq<MockEvent>
    var registeredEventIds: seq<int>
    var notifications: seq<Notification>

    constructor(events: seq<MockEvent>, registeredEventIds: seq<int>, notifications: seq<Notification>)
      ensures this.events == events
      ensures this.registeredEventIds == registeredEventIds && this.notifications == notifications
    {
      this.events := events;
      this.registeredEventIds := registeredEventIds;
      this.notifications := notifications;
    }

    /** `handleRegister`: nothing happens for an id already registered;
        otherwise the id goes to the end and, when the event is known, one
        unread confirmation goes to the front. */
    method HandleRegister(eventId: int, stamp: int, today: string)
      modifies this
      ensures eventId in old(registeredEventIds) ==>
        registeredEventIds == old(registeredEventIds) && notifications == old(notifications)
      ensures eventId !in old(registeredEventIds) ==> registeredEventIds == old(registeredEventIds) + [eventId]
      ensures eventId !in old(registeredEventIds) ==>
        notifications == match FindEvent(events, eventId)
          case Some(e) => [Confirmation(stamp, today, e)] + old(notifications)
          case None => old(notifications)
      ensures Distinct(old(registeredEventIds)) ==> Distinct(registeredEventIds)
      ensures eventId in registeredEventIds
    {
      if eventId !in registeredEventIds {
        registeredEventIds := registeredEventIds + [eventId];
        var event := FindEvent(events, eventId);
        if event.Some? {
          notifications := [Confirmation(stamp, today, event.value)] + notifications;
        }
      }
    }

    /** `handleUnregister`: every occurrence of the id goes, the other ids
        stay in order. */
    method HandleUnregister(eventId: int)
      modifies this
      ensures registeredEventIds == RemoveAll(old(registeredEventIds), eventId)
      ensures eventId !in registeredEventIds && IsSubseq(registeredEventIds, old(registeredEventIds))
      ensures multiset(registeredEventIds) == multiset(old(registeredEventIds))[eventId := 0]
      ensures notifications == old(notifications)
    {
      RemoveAllSpec(registeredEventIds, eventId);
      registeredEventIds := RemoveAll(registeredEventIds, eventId);
    }

    method HandleMarkAsRead(notificationId: int)
      modifies this
      ensures notifications == MarkRead(old(notifications), notificationId)
      ensures registeredEventIds == old(registeredEventIds)
    {
      notifications := MarkRead(notifications, notificationId);
    }

    method HandleDeleteNotification(notificationId: int)
      modifies this
      ensures notifications == DeleteNotification(old(notifications), notificationId)
      ensures registeredEventIds == old(registeredEventIds)
    {
      notifications := DeleteNotification(notifications, notificationId);
    }
  }
}
