/** The stored event document (models/Event.js): its fields, the values the
    schema accepts, and the defaults it fills in when a document is created. */
module EventSchema {
  import opened Wrappers
  import opened Text

  type UserId = nat
  type EventId = nat

  /** The thirteen values the `category` enum admits. */
  const Categories: seq<string> := [
    "dance", "hackathon", "workshop", "competition", "festival", "other",
    "Cultural & Sports Fest", "National Festival", "Academic & Cultural Support",
    "Health & Social Welfare", "Wellness & Personal Development",
    "Academic Workshop", "Project Exhibition"
  ]

  const Statuses: seq<string> := ["upcoming", "completed"]

  const DefaultImage: string :=
    "https://img.freepik.com/premium-vector/default-image-icon-vector-missing-picture-page-website-design-mobile-app-no-photo-available_87543-11093.jpg?w=360"

  /** A stored event. `date` is an instant; `participants` is an ordered list
      of user ids on which the schema itself puts no uniqueness constraint. */
  datatype Event = Event(
    name: string,
    theme: Option<string>,
    description: Option<string>,
    eligibility: string,
    category: string,
    date: int,
    status: string,
    registrationRequired: bool,
    createdBy: UserId,
    image: string,
    participants: seq<UserId>)

  /** What the schema's validators accept of a stored event. */
  predicate Valid(e: Event) {
    |e.name| > 0 && e.category in Categories && e.status in Statuses
  }

  /** The fields a client may supply when an event document is built;
      `None` is a field left undefined. */
  datatype EventInput = EventInput(
    name: Option<string>,
    theme: Option<string>,
    description: Option<string>,
    eligibility: Option<string>,
    category: Option<string>,
    date: Option<int>,
    status: Option<string>,
    registrationRequired: Option<bool>,
    createdBy: Option<UserId>,
    image: Option<string>)

  datatype Field = Name | Category | Date | Status | CreatedBy

  /** The paths whose validators reject the input: `required` rejects an
      undefined value and, for a string, the empty one; `enum` rejects any
      defined value outside its list. */
  function Violations(input: EventInput): set<Field>
  {
    (if !Truthy(input.name) then {Name} else {})
    + (if input.category.None? || input.category.value !in Categories then {Category} else {})
    + (if input.date.None? then {Date} else {})
    + (if input.status.Some? && input.status.value !in Statuses then {Status} else {})
    + (if input.createdBy.None? then {CreatedBy} else {})
  }

  /** Builds and validates a new event document: rejected with every failing
      path, or accepted with the schema's defaults filled in for undefined
      fields and an empty participant list. */
  function Create(input: EventInput): (r: Result<Event, set<Field>>)
    ensures r.Failure? <==> Violations(input) != {}
    ensures r.Failure? ==> r.error == Violations(input)
    ensures r.Success? ==> Valid(r.value) && r.value.participants == []
    ensures r.Success? ==> r.value.status == input.status.GetOr("upcoming")
    ensures r.Success? ==> r.value.registrationRequired == input.registrationRequired.GetOr(true)
    ensures r.Success? ==> r.value.eligibility == input.eligibility.GetOr("all")
    ensures r.Success? ==> r.value.image == input.image.GetOr(DefaultImage)
    ensures r.Success? ==> r.value.name == input.name.value && r.value.theme == input.theme && r.value.description == input.description
    ensures r.Success? ==> r.value.category == input.category.value && r.value.date == input.date.value && r.value.createdBy == input.createdBy.value
  {
    var v := Violations(input);
    if v != {} then Failure(v)
    else
      assert Truthy(input.name);
      Success(Event(
        input.name.value, input.theme, input.description,
        input.eligibility.GetOr("all"), input.category.value, input.date.value,
        input.status.GetOr("upcoming"), input.registrationRequired.GetOr(true),
        input.createdBy.value, input.image.GetOr(DefaultImage), []))
  }

  /** An event given only its required fields is upcoming, needs
      registration, is open to all and has nobody registered. */
  lemma CreateDefaults(name: string, category: string, date: int, createdBy: UserId)
    requires |name| > 0 && category in Categories
    ensures var r := Create(EventInput(Some(name), None, None, None, Some(category), Some(date), None, None, Some(createdBy), None));
      r.Success? && r.value.status == "upcoming" && r.value.registrationRequired
      && r.value.eligibility == "all" && r.value.participants == [] && r.value.image == DefaultImage
  {
  }
}
