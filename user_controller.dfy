/** The profile endpoints of controllers/user.js as methods on the store. */
module UserController {
  import opened Wrappers
  import opened Text
  import opened EventSchema
  import opened UserSchema
  import opened Registrations
  import opened Database

  datatype Outcome = Ok | UserNotFound | EmailInUse | ServerError

  function StatusCode(o: Outcome): (code: int)
    ensures code == 200 <==> o.Ok?
    ensures code == 404 <==> o.UserNotFound?
    ensures code == 400 <==> o.EmailInUse?
    ensures code == 500 <==> o.ServerError?
  {
    match o
    case Ok => 200
    case UserNotFound => 404
    case EmailInUse => 400
    case ServerError => 500
  }

  /** The body of a profile update; `None` is a field left out. */
  datatype ProfileUpdate = ProfileUpdate(
    name: Option<string>, email: Option<string>, year: Option<string>, bio: Option<string>)

  /** The uniqueness lookup runs only for a truthy email that differs,
      character for character, from the stored one. The lookup itself goes
      through the schema's setters, so it searches for the lower-cased,
      trimmed address, and it finds the caller's own record as readily as
      anyone else's. */
  predicate EmailTaken(users: map<UserId, User>, current: string, email: Option<string>) {
    Truthy(email) && email.value != current
    && exists u :: u in users && users[u].email == NormalizeEmail(email.value)
  }

  /** The record after the field assignments, before it is validated: name,
      email and year are overwritten only when truthy, bio whenever present,
      and the avatar follows a supplied name. The setters trim the name and
      lower-case and trim the email; the avatar is taken from the name as
      sent. */
  function Apply(u: User, body: ProfileUpdate): (r: User)
    ensures r.name == (if Truthy(body.name) then Trim(body.name.value) else u.name)
    ensures r.email == (if Truthy(body.email) then NormalizeEmail(body.email.value) else u.email)
    ensures r.year == (if Truthy(body.year) then body.year else u.year)
    ensures r.bio == body.bio.GetOr(u.bio)
    ensures Truthy(body.name) ==> r.avatar == DefaultAvatar(body.name)
    ensures !Truthy(body.name) ==> r.avatar == u.avatar
    ensures r.password == u.password && r.role == u.role && r.registeredEvents == u.registeredEvents
  {
    var u1 := if Truthy(body.name) then u.(name := Trim(body.name.value)) else u;
    var u2 := if Truthy(body.email) then u1.(email := NormalizeEmail(body.email.value)) else u1;
    var u3 := if Truthy(body.year) then u2.(year := body.year) else u2;
    var u4 := if body.bio.Some? then u3.(bio := body.bio.value) else u3;
    if Truthy(body.name) then u4.(avatar := [UpperChar(body.name.value[0])]) else u4
  }

  /** updateUserProfile (user.js:33-89). A record the schema rejects on save
      is answered with 500 and nothing is stored. */
  method UpdateUserProfile(db: Store, userId: UserId, body: ProfileUpdate) returns (o: Outcome)
    modifies db
    ensures userId !in old(db.users) ==> o == UserNotFound
    ensures userId in old(db.users) ==>
      var u := old(db.users)[userId];
      if EmailTaken(old(db.users), u.email, body.email) then o == EmailInUse
      else if !UserSchema.Valid(Apply(u, body)) then o == ServerError
      else o == Ok
    ensures o != Ok ==> db.users == old(db.users)
    ensures o == Ok ==> db.users == old(db.users)[userId := Apply(old(db.users)[userId], body)]
    ensures db.events == old(db.events)
    ensures Consistent(old(db.events), old(db.users)) ==> Consistent(db.events, db.users)
  {
    if userId !in db.users {
      return UserNotFound;
    }
    var user := db.users[userId];
    if EmailTaken(db.users, user.email, body.email) {
      return EmailInUse;
    }
    user := Apply(user, body);
    if !UserSchema.Valid(user) {
      return ServerError;
    }
    if Consistent(db.events, db.users) {
      ReplaceUserKeepsConsistent(db.events, db.users, userId, user);
    }
    db.users := db.users[userId := user];
    return Ok;
  }

  /** A body with every field left out changes nothing. */
  lemma EmptyUpdateChangesNothing(u: User)
    ensures Apply(u, ProfileUpdate(None, None, None, None)) == u
  {
  }

  /** Resending one's own address unchanged never triggers the lookup. */
  lemma SameEmailSkipsLookup(users: map<UserId, User>, current: string)
    ensures !EmailTaken(users, current, Some(current))
  {
  }

  /** Resending one's own address with different capitals or surrounding
      blanks is rejected as already in use: the lookup finds the caller's own
      record. */
  lemma OwnEmailRecasedIsTaken(users: map<UserId, User>, userId: UserId, email: string)
    requires userId in users
    requires |email| > 0 && email != users[userId].email
    requires NormalizeEmail(email) == users[userId].email
    ensures EmailTaken(users, users[userId].email, Some(email))
  {
    assert users[userId].email == NormalizeEmail(email);
  }

  /** The avatar is computed from the name as sent, not from the trimmed
      name that is stored: a name sent with a leading blank stores the name
      without it and an avatar that is a blank. */
  lemma AvatarFromUntrimmedName(u: User, name: string)
    requires name != [] && !IsSpace(name[0]) && !IsSpace(name[|name| - 1])
    ensures Apply(u, ProfileUpdate(Some([' '] + name), None, None, None)).name == name
    ensures Apply(u, ProfileUpdate(Some([' '] + name), None, None, None)).avatar == " "
  {
    TrimLeadingBlank(name);
  }

  /** deleteUserAccount (user.js:92-117): only the user record goes; no
      event's participant list is touched. */
  method DeleteUserAccount(db: Store, userId: UserId) returns (o: Outcome)
    modifies db
    ensures o == UserNotFound <==> userId !in old(db.users)
    ensures o.Ok? <==> userId in old(db.users)
    ensures o.Ok? ==> db.users == old(db.users) - {userId}
    ensures !o.Ok? ==> db.users == old(db.users)
    ensures db.events == old(db.events)
  {
    if userId !in db.users {
      return UserNotFound;
    }
    db.users := db.users - {userId};
    return Ok;
  }
}
