/** The registration endpoints of controllers/event.js as methods on the
    store. Each method runs the source's guards in the source's order; the
    first failing guard decides the outcome. `now` is the request's clock
    reading, as an instant. */
module EventController {
  import opened Wrappers
  import opened Text
  import opened Seqs
  import opened Clock
  import opened EventSchema
  import opened UserSchema
  import opened Registrations
  import opened Database

  datatype Outcome =
    | Ok
    | EventNotFound
    | RegistrationNotRequired
    | RegistrationClosed
    | AlreadyRegistered
    | UserNotFound
    | CannotUnregisterClosed
    | NotRegistered
    | UserNotRegistered
    | NotAuthorized

  /** The HTTP status each outcome is answered with. */
  function StatusCode(o: Outcome): (code: int)
    ensures code in {200, 400, 403, 404}
    ensures code == 200 <==> o.Ok?
    ensures code == 404 <==> o in {EventNotFound, UserNotFound}
    ensures code == 403 <==> o.NotAuthorized?
  {
    match o
    case Ok => 200
    case EventNotFound | UserNotFound => 404
    case NotAuthorized => 403
    case _ => 400
  }

  /** An event is closed when its calendar day lies before today's or it is
      marked completed; an event later on the same day is still open. */
  predicate IsClosed(ev: Event, now: int) {
    DayOf(ev.date) < DayOf(now) || ev.status == "completed"
  }

  /** An event that is neither completed nor on an earlier day than `now`
      stays open for the rest of that day, whatever the hour of either. */
  lemma SameDayIsOpen(ev: Event, now: int)
    requires ev.status != "completed" && DayOf(ev.date) == DayOf(now)
    ensures !IsClosed(ev, now)
    ensures ev.date < now ==> !IsClosed(ev, now)
  {
  }

  /** Closure only grows with time: an event closed at `now` is closed at
      every later instant. */
  lemma ClosedStaysClosed(ev: Event, now: int, later: int)
    requires now <= later && IsClosed(ev, now)
    ensures IsClosed(ev, later)
  {
    DayOfMonotone(now, later);
  }

  /** registerEvent (event.js:72-164). */
  method RegisterEvent(db: Store, eventId: EventId, userId: UserId, now: int) returns (o: Outcome)
    modifies db
    ensures eventId !in old(db.events) ==> o == EventNotFound
    ensures eventId in old(db.events) ==>
      var ev := old(db.events)[eventId];
      if !ev.registrationRequired then o == RegistrationNotRequired
      else if IsClosed(ev, now) then o == RegistrationClosed
      else if userId in ev.participants then o == AlreadyRegistered
      else if userId !in old(db.users) then o == UserNotFound
      else o == Ok
    ensures o !in {Ok, UserNotFound} ==> db.events == old(db.events) && db.users == old(db.users)
    ensures o in {Ok, UserNotFound} ==> db.events == AddParticipant(old(db.events), eventId, userId)
    ensures o == UserNotFound ==> db.users == old(db.users)
    ensures o == Ok ==> db.users == AddRegisteredEvent(old(db.users), userId, eventId)
    ensures o == Ok && Consistent(old(db.events), old(db.users)) ==> Consistent(db.events, db.users)
  {
    if eventId !in db.events {
      return EventNotFound;
    }
    var ev := db.events[eventId];
    if !ev.registrationRequired {
      return RegistrationNotRequired;
    }
    if IsClosed(ev, now) {
      return RegistrationClosed;
    }
    if userId in ev.participants {
      return AlreadyRegistered;
    }
    ghost var events0, users0 := db.events, db.users;
    db.events := db.events[eventId := ev.(participants := ev.participants + [userId])];
    if userId !in db.users {
      return UserNotFound;
    }
    var user := db.users[userId];
    if eventId !in user.registeredEvents {
      db.users := db.users[userId := user.(registeredEvents := user.registeredEvents + [eventId])];
    }
    if Consistent(events0, users0) {
      RegisterKeepsConsistent(events0, users0, eventId, userId);
    }
    return Ok;
  }

  /** The two-sided removal shared by unregisterEvent and
      removeUserRegistration: every occurrence of the user leaves the event,
      and the event leaves the user's list when the user exists. */
  method RemoveRegistration(db: Store, eventId: EventId, userId: UserId)
    requires eventId in db.events
    modifies db
    ensures db.events == RemoveParticipant(old(db.events), eventId, userId)
    ensures db.users == RemoveRegisteredEvent(old(db.users), userId, eventId)
  {
    var ev := db.events[eventId];
    db.events := db.events[eventId := ev.(participants := RemoveAll(ev.participants, userId))];
    if userId in db.users {
      var user := db.users[userId];
      db.users := db.users[userId := user.(registeredEvents := RemoveAll(user.registeredEvents, eventId))];
    }
  }

  /** unregisterEvent (event.js:167-240). */
  method UnregisterEvent(db: Store, eventId: EventId, userId: UserId, now: int) returns (o: Outcome)
    modifies db
    ensures eventId !in old(db.events) ==> o == EventNotFound
    ensures eventId in old(db.events) ==>
      var ev := old(db.events)[eventId];
      if IsClosed(ev, now) then o == CannotUnregisterClosed
      else if userId !in ev.participants then o == NotRegistered
      else o == Ok
    ensures o != Ok ==> db.events == old(db.events) && db.users == old(db.users)
    ensures o == Ok ==> db.events == RemoveParticipant(old(db.events), eventId, userId)
    ensures o == Ok ==> db.users == RemoveRegisteredEvent(old(db.users), userId, eventId)
    ensures o == Ok && Consistent(old(db.events), old(db.users)) ==> Consistent(db.events, db.users)
  {
    if eventId !in db.events {
      return EventNotFound;
    }
    var ev := db.events[eventId];
    if IsClosed(ev, now) {
      return CannotUnregisterClosed;
    }
    if userId !in ev.participants {
      return NotRegistered;
    }
    ghost var events0, users0 := db.events, db.users;
    RemoveRegistration(db, eventId, userId);
    if Consistent(events0, users0) {
      UnregisterKeepsConsistent(events0, users0, eventId, userId);
    }
    return Ok;
  }

  /** removeUserRegistration (event.js:405-463): the coordinator's removal,
      with no closed-event guard. */
  method RemoveUserRegistration(db: Store, eventId: EventId, userId: UserId) returns (o: Outcome)
    modifies db
    ensures eventId !in old(db.events) ==> o == EventNotFound
    ensures eventId in old(db.events) ==>
      if userId !in old(db.events)[eventId].participants then o == UserNotRegistered else o == Ok
    ensures o != Ok ==> db.events == old(db.events) && db.users == old(db.users)
    ensures o == Ok ==> db.events == RemoveParticipant(old(db.events), eventId, userId)
    ensures o == Ok ==> db.users == RemoveRegisteredEvent(old(db.users), userId, eventId)
    ensures o == Ok && Consistent(old(db.events), old(db.users)) ==> Consistent(db.events, db.users)
  {
    if eventId !in db.events {
      return EventNotFound;
    }
    if userId !in db.events[eventId].participants {
      return UserNotRegistered;
    }
    ghost var events0, users0 := db.events, db.users;
    RemoveRegistration(db, eventId, userId);
    if Consistent(events0, users0) {
      UnregisterKeepsConsistent(events0, users0, eventId, userId);
    }
    return Ok;
  }

  /** Whether the caller may edit or delete an event: its creator or an admin. */
  predicate MayManage(ev: Event, callerId: UserId, callerRole: string) {
    ev.createdBy == callerId || callerRole == "admin"
  }

  /** deleteEvent (event.js:322-371). */
  method DeleteEvent(db: Store, eventId: EventId, callerId: UserId, callerRole: string) returns (o: Outcome)
    modifies db
    ensures eventId !in old(db.events) ==> o == EventNotFound
    ensures eventId in old(db.events) ==>
      if !MayManage(old(db.events)[eventId], callerId, callerRole) then o == NotAuthorized else o == Ok
    ensures o != Ok ==> db.events == old(db.events) && db.users == old(db.users)
    ensures o == Ok ==> db.events == old(db.events) - {eventId}
    ensures o == Ok ==> db.users == PullRegisteredEvent(old(db.users), old(db.events)[eventId].participants, eventId)
    ensures o == Ok && Consistent(old(db.events), old(db.users)) ==>
      Consistent(db.events, db.users) && forall u :: u in db.users ==> eventId !in db.users[u].registeredEvents
  {
    if eventId !in db.events {
      return EventNotFound;
    }
    var ev := db.events[eventId];
    if !MayManage(ev, callerId, callerRole) {
      return NotAuthorized;
    }
    ghost var events0, users0 := db.events, db.users;
    if |ev.participants| > 0 {
      db.users := PullRegisteredEvent(db.users, ev.participants, eventId);
    } else {
      assert PullRegisteredEvent(db.users, ev.participants, eventId) == db.users;
    }
    db.events := db.events - {eventId};
    if Consistent(events0, users0) {
      DeleteKeepsConsistent(events0, users0, eventId);
    }
    return Ok;
  }

  /** A participant as the roster shows it: the populated name, email and year. */
  datatype Participant = Participant(id: UserId, name: string, email: string, year: Option<string>)

  /** `populate('participants', 'name email year')`: each id that names a
      stored user becomes that user's summary, in order; ids naming no user
      are dropped. */
  function Roster(users: map<UserId, User>, ids: seq<UserId>): (r: seq<Participant>)
    ensures |r| <= |ids|
    ensures Ids(r) == Filter(Stored(users), ids)
    ensures forall i :: 0 <= i < |r| ==> r[i].id in ids && r[i].id in users
    ensures forall i :: 0 <= i < |r| ==>
      r[i] == Participant(r[i].id, users[r[i].id].name, users[r[i].id].email, users[r[i].id].year)
  {
    if ids == [] then []
    else
      var rest := Roster(users, ids[..|ids| - 1]);
      var id := ids[|ids| - 1];
      if id in users then
        var p := Participant(id, users[id].name, users[id].email, users[id].year);
        assert Ids(rest + [p]) == Ids(rest) + [id];
        rest + [p]
      else rest
  }

  /** The ids of a roster, in its order. */
  function Ids(r: seq<Participant>): (ids: seq<UserId>)
    ensures |ids| == |r| && forall i :: 0 <= i < |r| ==> ids[i] == r[i].id
  {
    seq(|r|, i requires 0 <= i < |r| => r[i].id)
  }

  /** "Names a stored user". */
  function Stored(users: map<UserId, User>): UserId -> bool {
    u => u in users
  }

  /** When every id names a stored user, nothing is dropped: the roster
      lists exactly the participant ids, in order. */
  lemma {:induction false} RosterComplete(users: map<UserId, User>, ids: seq<UserId>)
    requires forall u :: u in ids ==> u in users
    ensures |Roster(users, ids)| == |ids|
    ensures forall i :: 0 <= i < |ids| ==> Roster(users, ids)[i].id == ids[i]
  {
    FilterKeepsAll(Stored(users), ids);
    assert Ids(Roster(users, ids)) == ids;
  }

  /** A participant whose user record is gone does not appear: the roster
      is one shorter than the participant list. */
  lemma RosterDropsMissing(users: map<UserId, User>, ids: seq<UserId>, gone: UserId)
    requires gone !in users && forall u :: u in ids ==> u in users
    ensures |Roster(users, ids + [gone])| == |ids|
  {
    RosterComplete(users, ids);
    assert (ids + [gone])[..|ids + [gone]| - 1] == ids;
  }

  /** getEventRegistrations (event.js:374-402): the populated roster and
      its count. */
  method GetEventRegistrations(db: Store, eventId: EventId) returns (o: Outcome, data: seq<Participant>, count: nat)
    ensures o == EventNotFound <==> eventId !in db.events
    ensures o.Ok? <==> eventId in db.events
    ensures o.Ok? ==> data == Roster(db.users, db.events[eventId].participants) && count == |data|
    ensures o.Ok? && Consistent(db.events, db.users) ==> count == |db.events[eventId].participants|
  {
    if eventId !in db.events {
      return EventNotFound, [], 0;
    }
    var ids := db.events[eventId].participants;
    data := Roster(db.users, ids);
    count := |data|;
    o := Ok;
    if Consistent(db.events, db.users) {
      RosterComplete(db.users, ids);
    }
  }

  /** The query filter of getAllEvents: a truthy `status` or `category`
      must match exactly; a missing or empty one filters nothing. */
  predicate MatchesQuery(ev: Event, status: Option<string>, category: Option<string>) {
    (Truthy(status) ==> ev.status == status.value)
    && (Truthy(category) ==> ev.category == category.value)
  }

  /** getAllEvents (event.js:9-38), without the date ordering. */
  method GetAllEvents(db: Store, status: Option<string>, category: Option<string>) returns (data: map<EventId, Event>)
    ensures data.Keys <= db.events.Keys
    ensures forall e :: e in db.events ==>
      (e in data <==> (Truthy(status) ==> db.events[e].status == status.value)
                      && (Truthy(category) ==> db.events[e].category == category.value))
    ensures forall e :: e in data ==> data[e] == db.events[e]
    ensures !Truthy(status) && !Truthy(category) ==> data == db.events
  {
    data := map e | e in db.events && MatchesQuery(db.events[e], status, category) :: db.events[e];
  }
}
