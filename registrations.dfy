/** The two-sided registration bookkeeping of the server, on values: each
    event lists its participants and each user lists the events they are
    registered for. This module states when the two lists agree and proves
    which of the controllers' list edits keep them agreeing. */
module Registrations {
  import opened Seqs
  import opened EventSchema
  import opened UserSchema

  /** For every stored event and stored user: the user is a participant of
      the event exactly when the event is among the user's registered events. */
  ghost predicate Agree(events: map<EventId, Event>, users: map<UserId, User>) {
    forall e, u :: e in events && u in users ==>
      (u in events[e].participants <==> e in users[u].registeredEvents)
  }

  /** Every id on either list names a stored document. */
  ghost predicate NoDangling(events: map<EventId, Event>, users: map<UserId, User>) {
    && (forall e, u :: e in events && u in events[e].participants ==> u in users)
    && (forall u, e :: u in users && e in users[u].registeredEvents ==> e in events)
  }

  /** Neither kind of list holds an id twice. */
  ghost predicate NoDuplicates(events: map<EventId, Event>, users: map<UserId, User>) {
    && (forall e :: e in events ==> Distinct(events[e].participants))
    && (forall u :: u in users ==> Distinct(users[u].registeredEvents))
  }

  ghost predicate Consistent(events: map<EventId, Event>, users: map<UserId, User>) {
    Agree(events, users) && NoDangling(events, users) && NoDuplicates(events, users)
  }

  /** `event.participants.push(userId)` (event.js:123). */
  function AddParticipant(events: map<EventId, Event>, eventId: EventId, userId: UserId): map<EventId, Event>
    requires eventId in events
  {
    events[eventId := events[eventId].(participants := events[eventId].participants + [userId])]
  }

  /** `user.registeredEvents.push(eventId)` unless already listed (event.js:139-146). */
  function AddRegisteredEvent(users: map<UserId, User>, userId: UserId, eventId: EventId): map<UserId, User>
    requires userId in users
  {
    var u := users[userId];
    if eventId in u.registeredEvents then users
    else users[userId := u.(registeredEvents := u.registeredEvents + [eventId])]
  }

  /** `event.participants = event.participants.filter(...)` (event.js:210, 434). */
  function RemoveParticipant(events: map<EventId, Event>, eventId: EventId, userId: UserId): map<EventId, Event>
    requires eventId in events
  {
    events[eventId := events[eventId].(participants := RemoveAll(events[eventId].participants, userId))]
  }

  /** The user-side filter, applied only when the user exists (event.js:216-222, 440-446). */
  function RemoveRegisteredEvent(users: map<UserId, User>, userId: UserId, eventId: EventId): map<UserId, User> {
    if userId in users then
      users[userId := users[userId].(registeredEvents := RemoveAll(users[userId].registeredEvents, eventId))]
    else users
  }

  /** `User.updateMany({_id: {$in: ids}}, {$pull: {registeredEvents: eventId}})`
      (event.js:349-352): every stored user whose id is in `ids` loses every
      occurrence of `eventId`; other users are untouched. */
  function PullRegisteredEvent(users: map<UserId, User>, ids: seq<UserId>, eventId: EventId): (r: map<UserId, User>)
    ensures r.Keys == users.Keys
    ensures forall u :: u in users && u !in ids ==> r[u] == users[u]
    ensures forall u :: u in users && u in ids ==>
      eventId !in r[u].registeredEvents && r[u] == users[u].(registeredEvents := r[u].registeredEvents)
    ensures forall u :: u in users && u in ids ==>
      multiset(r[u].registeredEvents) == multiset(users[u].registeredEvents)[eventId := 0]
      && IsSubseq(r[u].registeredEvents, users[u].registeredEvents)
  {
    map u | u in users ::
      if u in ids then users[u].(registeredEvents := RemoveAll(users[u].registeredEvents, eventId))
      else users[u]
  }

  /** A successful registration appends the user exactly once and leaves the
      other participants in place and in order. */
  lemma AddParticipantOnce(events: map<EventId, Event>, eventId: EventId, userId: UserId)
    requires eventId in events && userId !in events[eventId].participants
    ensures var before := events[eventId].participants;
      var after := AddParticipant(events, eventId, userId)[eventId].participants;
      |after| == |before| + 1 && after[..|before|] == before
      && multiset(after)[userId] == 1
      && forall v :: v != userId ==> multiset(after)[v] == multiset(before)[v]
  {
    var before := events[eventId].participants;
    assert userId !in multiset(before);
  }

  /** The user side never gains a duplicate. */
  lemma AddRegisteredEventKeepsDistinct(users: map<UserId, User>, userId: UserId, eventId: EventId)
    requires userId in users && Distinct(users[userId].registeredEvents)
    ensures var after := AddRegisteredEvent(users, userId, eventId)[userId].registeredEvents;
      Distinct(after) && eventId in after
  {
  }

  /** Registering a user who is not yet a participant, and who exists, keeps
      the two lists agreeing (event.js:123-146). */
  lemma {:induction false} RegisterKeepsConsistent(
      events: map<EventId, Event>, users: map<UserId, User>, eventId: EventId, userId: UserId)
    requires Consistent(events, users)
    requires eventId in events && userId in users && userId !in events[eventId].participants
    ensures Consistent(AddParticipant(events, eventId, userId), AddRegisteredEvent(users, userId, eventId))
  {
    var events', users' := AddParticipant(events, eventId, userId), AddRegisteredEvent(users, userId, eventId);
    assert eventId !in users[userId].registeredEvents;
    assert users'[userId].registeredEvents == users[userId].registeredEvents + [eventId];
    forall e, u | e in events' && u in users'
      ensures u in events'[e].participants <==> e in users'[u].registeredEvents
    {
      if e == eventId && u == userId {
      } else if e == eventId {
        assert events'[e].participants == events[e].participants + [userId];
      } else if u == userId {
      }
    }
    assert NoDangling(events', users');
  }

  /** The registration path that finds no user record leaves a participant
      that names no user: the two sides no longer agree (event.js:122-133). */
  lemma MissingUserBreaksConsistency(
      events: map<EventId, Event>, users: map<UserId, User>, eventId: EventId, userId: UserId)
    requires eventId in events && userId !in users
    ensures !NoDangling(AddParticipant(events, eventId, userId), users)
  {
    var events' := AddParticipant(events, eventId, userId);
    assert userId in events'[eventId].participants;
  }

  /** Removing a registered user from an event, on both sides, keeps the
      lists agreeing (event.js:209-222 and 433-446). */
  lemma {:induction false} UnregisterKeepsConsistent(
      events: map<EventId, Event>, users: map<UserId, User>, eventId: EventId, userId: UserId)
    requires Consistent(events, users)
    requires eventId in events && userId in events[eventId].participants
    ensures Consistent(RemoveParticipant(events, eventId, userId), RemoveRegisteredEvent(users, userId, eventId))
  {
    var events', users' := RemoveParticipant(events, eventId, userId), RemoveRegisteredEvent(users, userId, eventId);
    assert userId in users;
    RemoveAllSpec(events[eventId].participants, userId);
    RemoveAllSpec(users[userId].registeredEvents, eventId);
    forall e, u | e in events' && u in users'
      ensures u in events'[e].participants <==> e in users'[u].registeredEvents
    {
      if e == eventId && u == userId {
      } else if e == eventId {
      } else if u == userId {
      }
    }
    forall e | e in events' ensures Distinct(events'[e].participants) {
    }
    forall u | u in users' ensures Distinct(users'[u].registeredEvents) {
    }
  }

  /** Pulling the event from its participants' lists and then deleting it
      keeps the lists agreeing and leaves no user naming the deleted event
      (event.js:347-356). */
  lemma {:induction false} DeleteKeepsConsistent(
      events: map<EventId, Event>, users: map<UserId, User>, eventId: EventId)
    requires Consistent(events, users) && eventId in events
    ensures var users' := PullRegisteredEvent(users, events[eventId].participants, eventId);
      Consistent(events - {eventId}, users')
      && forall u :: u in users' ==> eventId !in users'[u].registeredEvents
  {
    var ids := events[eventId].participants;
    var events', users' := events - {eventId}, PullRegisteredEvent(users, ids, eventId);
    forall u | u in users
      ensures eventId !in users'[u].registeredEvents
      ensures forall e :: e != eventId ==> (e in users'[u].registeredEvents <==> e in users[u].registeredEvents)
      ensures Distinct(users'[u].registeredEvents)
    {
      RemoveAllSpec(users[u].registeredEvents, eventId);
      if u !in ids {
        assert eventId !in users[u].registeredEvents;
      }
    }
  }

  /** Deleting a user record leaves the lists agreeing on the documents that
      remain but, when the user was registered anywhere, leaves a participant
      that names no user (user.js:103). */
  lemma DeleteUserLeavesDangling(
      events: map<EventId, Event>, users: map<UserId, User>, userId: UserId, eventId: EventId)
    requires Consistent(events, users)
    requires eventId in events && userId in events[eventId].participants
    ensures Agree(events, users - {userId})
    ensures !NoDangling(events, users - {userId})
  {
    assert userId !in (users - {userId});
  }

  /** Rewriting a user's profile fields, with the same registered events,
      keeps the lists agreeing (user.js:59-69). */
  lemma ReplaceUserKeepsConsistent(
      events: map<EventId, Event>, users: map<UserId, User>, userId: UserId, user: User)
    requires Consistent(events, users)
    requires userId in users && user.registeredEvents == users[userId].registeredEvents
    ensures Consistent(events, users[userId := user])
  {
  }
}
