/** The stored user document (models/User.js): its fields, the values the
    schema accepts, the setters applied on assignment and the defaults. */
module UserSchema {
  import opened Wrappers
  import opened Text
  import EventSchema

  datatype Role = Student | Coordinator

  const Years: seq<string> := ["1st Year", "2nd Year", "3rd Year", "4th Year"]
  const MaxBio: nat := 500
  const MinPassword: nat := 6

  datatype User = User(
    name: string,
    email: string,
    password: string,
    role: Role,
    year: Option<string>,
    bio: string,
    avatar: string,
    registeredEvents: seq<EventSchema.EventId>)

  /** The `lowercase` and `trim` setters of `email`: the result is the
      lower-cased address with the white space at both ends cut off. */
  function NormalizeEmail(s: string): (r: string)
    ensures |r| <= |s|
    ensures forall i :: 0 <= i < |r| ==> !('A' <= r[i] <= 'Z')
    ensures r == [] || (!IsSpace(r[0]) && !IsSpace(r[|r| - 1]))
    ensures exists k :: OccursAt(Lower(s), r, k) && TrimmedAt(Lower(s), r, k)
  {
    var l := Lower(s);
    assert forall j :: 0 <= j < |l| ==> !('A' <= l[j] <= 'Z');
    Trim(l)
  }

  /** `year` is required exactly for students; when present it is one of the
      four enum values. */
  predicate YearOk(role: Role, year: Option<string>) {
    (role == Student ==> year.Some?) && (year.Some? ==> year.value in Years)
  }

  /** What the schema's validators accept of a stored user (the email
      pattern aside). */
  predicate Valid(u: User) {
    |u.name| > 0 && |u.email| > 0 && |u.password| >= MinPassword
    && YearOk(u.role, u.year) && |u.bio| <= MaxBio
  }

  /** The `avatar` default: the upper-cased first character of the name, or
      "U" when there is no name. */
  function DefaultAvatar(name: Option<string>): (r: string)
    ensures |r| == 1
    ensures Truthy(name) ==> r == [UpperChar(name.value[0])]
    ensures !Truthy(name) ==> r == "U"
  {
    if Truthy(name) then [UpperChar(name.value[0])] else "U"
  }

  function ParseRole(s: string): Option<Role> {
    if s == "student" then Some(Student)
    else if s == "coordinator" then Some(Coordinator)
    else None
  }

  datatype UserInput = UserInput(
    name: Option<string>,
    email: Option<string>,
    password: Option<string>,
    role: Option<string>,
    year: Option<string>,
    bio: Option<string>,
    avatar: Option<string>)

  datatype Field = NameField | EmailField | PasswordField | RoleField | YearField | BioField

  /** The paths whose validators reject the input once the setters have run
      (`name` and `email` are trimmed, `email` lower-cased). */
  function Violations(input: UserInput): set<Field>
  {
    var role := if input.role.Some? then ParseRole(input.role.value) else None;
    (if input.name.None? || Trim(input.name.value) == [] then {NameField} else {})
    + (if input.email.None? || NormalizeEmail(input.email.value) == [] then {EmailField} else {})
    + (if input.password.None? || |input.password.value| < MinPassword then {PasswordField} else {})
    + (if role.None? then {RoleField} else {})
    + (if (role == Some(Student) && input.year.None?)
          || (input.year.Some? && input.year.value !in Years) then {YearField} else {})
    + (if input.bio.Some? && |input.bio.value| > MaxBio then {BioField} else {})
  }

  /** Builds and validates a new user document. */
  function Create(input: UserInput): (r: Result<User, set<Field>>)
    ensures r.Failure? <==> Violations(input) != {}
    ensures r.Failure? ==> r.error == Violations(input)
    ensures r.Success? ==> Valid(r.value) && r.value.registeredEvents == []
    ensures r.Success? ==>
      r.value.password == input.password.value && ParseRole(input.role.value) == Some(r.value.role) && r.value.year == input.year
    ensures r.Success? ==>
      r.value.name == Trim(input.name.value) && r.value.email == NormalizeEmail(input.email.value)
    ensures r.Success? ==> r.value.bio == input.bio.GetOr("")
    ensures r.Success? && input.avatar.None? ==> r.value.avatar == DefaultAvatar(Some(r.value.name))
    ensures r.Success? && input.avatar.Some? ==> r.value.avatar == input.avatar.value
  {
    var v := Violations(input);
    if v != {} then Failure(v)
    else
      var name := Trim(input.name.value);
      var role := ParseRole(input.role.value).value;
      Success(User(
        name, NormalizeEmail(input.email.value), input.password.value, role,
        input.year, input.bio.GetOr(""),
        if input.avatar.Some? then input.avatar.value else DefaultAvatar(Some(name)), []))
  }

  /** A student cannot be created without a year, a coordinator can. */
  lemma YearRequiredOnlyForStudents(input: UserInput)
    requires input.year.None?
    ensures YearField in Violations(input) <==> input.role == Some("student")
  {
  }

  /** The email setters are idempotent: an address already stored is its
      own normal form, so running the setters again (as a query does)
      changes nothing. */
  lemma NormalizeEmailIdempotent(s: string)
    ensures NormalizeEmail(NormalizeEmail(s)) == NormalizeEmail(s)
  {
    var n := NormalizeEmail(s);
    assert Lower(n) == n by {
      forall i | 0 <= i < |n| ensures Lower(n)[i] == n[i] {
        assert !('A' <= n[i] <= 'Z');
      }
    }
  }
}
