/** The coordinator's dashboard (CoordinatorDashboard.jsx): the three-way
    status of an event by its UTC calendar day, the status buckets, the
    participant total, the tab and search filter, the quoted CSV export and
    the reset of the event form. */
module CoordinatorDashboard {
  import opened Wrappers
  import opened Seqs
  import opened Text
  import opened Clock
  import opened ClientEvents

  datatype Phase = Upcoming | Ongoing | Completed

  /** Today's ISO date part against the event's: equal is ongoing, later is
      upcoming, earlier is completed. */
  function EventStatus(date: int, now: int): (ph: Phase)
    ensures ph == Ongoing <==> DayOf(date) == DayOf(now)
    ensures ph == Upcoming <==> DayOf(date) > DayOf(now)
    ensures ph == Completed <==> DayOf(date) < DayOf(now)
  {
    if DayOf(date) == DayOf(now) then Ongoing
    else if DayOf(date) > DayOf(now) then Upcoming
    else Completed
  }

  /** As the clock advances an event's status only moves forward:
      upcoming, then ongoing, then completed. */
  lemma {:induction false} StatusMovesForward(date: int, now: int, later: int)
    requires now <= later
    ensures EventStatus(date, now) == Completed ==> EventStatus(date, later) == Completed
    ensures EventStatus(date, now) == Ongoing ==> EventStatus(date, later) != Upcoming
  {
    DayOfMonotone(now, later);
  }

  function StatusAt(now: int): ApiEvent -> Phase {
    (e: ApiEvent) => EventStatus(e.date, now)
  }

  /** "Has status `ph`", as a filter predicate. */
  function InPhase<E>(status: E -> Phase, ph: Phase): E -> bool {
    e => status(e) == ph
  }

  /** The events whose status is `ph`, in input order. */
  function Bucket<E(==,!new)>(events: seq<E>, status: E -> Phase, ph: Phase): seq<E> {
    Filter(InPhase(status, ph), events)
  }

  /** `categorizedEvents`: one pass that pushes each event onto the list of
      its status. */
  method Categorize<E(==,!new)>(events: seq<E>, status: E -> Phase)
    returns (upcoming: seq<E>, ongoing: seq<E>, completed: seq<E>)
    ensures upcoming == Bucket(events, status, Upcoming)
    ensures ongoing == Bucket(events, status, Ongoing)
    ensures completed == Bucket(events, status, Completed)
  {
    upcoming, ongoing, completed := [], [], [];
    var i := 0;
    while i < |events|
      invariant 0 <= i <= |events|
      invariant upcoming == Filter(InPhase(status, Upcoming), events[..i])
      invariant ongoing == Filter(InPhase(status, Ongoing), events[..i])
      invariant completed == Filter(InPhase(status, Completed), events[..i])
    {
      var e := events[i];
      FilterStep(InPhase(status, Upcoming), events, i);
      FilterStep(InPhase(status, Ongoing), events, i);
      FilterStep(InPhase(status, Completed), events, i);
      match status(e) {
        case Upcoming => upcoming := upcoming + [e];
        case Ongoing => ongoing := ongoing + [e];
        case Completed => completed := completed + [e];
      }
      i := i + 1;
    }
    assert events[..|events|] == events;
  }

  /** Every event lands in exactly one bucket: the buckets together hold the
      input, counted with multiplicity, and their sizes add up to its length. */
  lemma {:induction false} BucketsPartition<E(!new)>(events: seq<E>, status: E -> Phase)
    ensures multiset(Bucket(events, status, Upcoming)) + multiset(Bucket(events, status, Ongoing))
            + multiset(Bucket(events, status, Completed)) == multiset(events)
    ensures |Bucket(events, status, Upcoming)| + |Bucket(events, status, Ongoing)|
            + |Bucket(events, status, Completed)| == |events|
  {
    if events != [] {
      var init := events[..|events| - 1];
      BucketsPartition(init, status);
      assert events == init + [events[|events| - 1]];
    }
    assert |Bucket(events, status, Upcoming)| == |multiset(Bucket(events, status, Upcoming))|;
    assert |Bucket(events, status, Ongoing)| == |multiset(Bucket(events, status, Ongoing))|;
    assert |Bucket(events, status, Completed)| == |multiset(Bucket(events, status, Completed))|;
  }

  /** `e.participants?.length || 0`. */
  function ParticipantCount(e: ApiEvent): nat {
    if e.participants.Some? then |e.participants.value| else 0
  }

  /** `totalParticipants`: the participant counts summed over the events. */
  function TotalParticipants(events: seq<ApiEvent>): nat {
    if events == [] then 0
    else TotalParticipants(events[..|events| - 1]) + ParticipantCount(events[|events| - 1])
  }

  /** The total of two lists side by side is the sum of their totals. */
  lemma {:induction false} TotalAppend(a: seq<ApiEvent>, b: seq<ApiEvent>)
    ensures TotalParticipants(a + b) == TotalParticipants(a) + TotalParticipants(b)
  {
    if b == [] {
      assert a + b == a;
    } else {
      var b' := b[..|b| - 1];
      TotalAppend(a, b');
      assert (a + b)[..|a + b| - 1] == a + b';
    }
  }

  /** The search test: the lower-cased query occurs in the lower-cased name
      or category. */
  predicate MatchesSearch(e: ApiEvent, query: string) {
    Contains(Lower(e.name), Lower(query)) || Contains(Lower(e.category), Lower(query))
  }

  function Search(query: string): ApiEvent -> bool {
    (e: ApiEvent) => MatchesSearch(e, query)
  }

  /** The list a tab shows before the search: its bucket for "upcoming",
      "ongoing" and "completed", every event for anything else. */
  function TabEvents(events: seq<ApiEvent>, now: int, filter: string): seq<ApiEvent> {
    if filter == "upcoming" then Bucket(events, StatusAt(now), Upcoming)
    else if filter == "ongoing" then Bucket(events, StatusAt(now), Ongoing)
    else if filter == "completed" then Bucket(events, StatusAt(now), Completed)
    else events
  }

  /** `filteredEvents`: the tab's list, narrowed by a non-empty search. */
  function FilteredEvents(events: seq<ApiEvent>, now: int, filter: string, query: string): (r: seq<ApiEvent>)
    ensures query == [] ==> r == TabEvents(events, now, filter)
    ensures forall e :: e in r <==> e in TabEvents(events, now, filter) && (query != [] ==> MatchesSearch(e, query))
    ensures forall e :: multiset(r)[e] == if query == [] || MatchesSearch(e, query) then multiset(TabEvents(events, now, filter))[e] else 0
  {
    var pool := TabEvents(events, now, filter);
    FilterCounts(Search(query), pool);
    if query != [] then Filter(Search(query), pool) else pool
  }

  /** The result keeps the order of the fetched list, whatever the tab and
      the query. */
  lemma FilteredIsSubseq(events: seq<ApiEvent>, now: int, filter: string, query: string)
    ensures IsSubseq(FilteredEvents(events, now, filter, query), events)
  {
    var bucket := filter == "upcoming" || filter == "ongoing" || filter == "completed";
    var ph := if filter == "upcoming" then Upcoming else if filter == "ongoing" then Ongoing else Completed;
    var tab := InPhase(StatusAt(now), ph);
    if query != [] && bucket {
      var both := (e: ApiEvent) => tab(e) && Search(query)(e);
      FilterTwice(tab, Search(query), both, events);
      FilterIsSubseq(both, events);
    } else if query != [] {
      FilterIsSubseq(Search(query), events);
    } else if bucket {
      FilterIsSubseq(tab, events);
    } else {
      SubseqRefl(events);
    }
  }

  /** The search ignores the case of the query. */
  lemma SearchIgnoresCase(events: seq<ApiEvent>, now: int, filter: string, query: string)
    ensures FilteredEvents(events, now, filter, Lower(query)) == FilteredEvents(events, now, filter, query)
  {
    LowerIdempotent(query);
    FilterCongruent(Search(Lower(query)), Search(query), TabEvents(events, now, filter));
  }

  /** The CSV header row. */
  const CsvHeader: string := "Name,Email,Year"

  /** A field between double quotes, a missing or empty value as `""`;
      quotes inside the value are not doubled. */
  function Quote(v: Option<string>): string {
    "\"" + (if Truthy(v) then v.value else "") + "\""
  }

  function CsvRow(p: Person): string {
    Quote(p.name) + "," + Quote(p.email) + "," + Quote(p.year)
  }

  function CsvRows(ps: seq<Person>): (r: seq<string>)
    ensures |r| == |ps|
    ensures forall i :: 0 <= i < |ps| ==> r[i] == CsvRow(ps[i])
  {
    seq(|ps|, i requires 0 <= i < |ps| => CsvRow(ps[i]))
  }

  /** `exportToCSV`'s content: nothing for a missing or empty list,
      otherwise the header and one row per participant joined by newlines. */
  function ExportToCSV(participants: Option<seq<Person>>): (r: Option<string>)
    ensures r.None? <==> participants.None? || participants.value == []
  {
    if participants.None? || participants.value == [] then None
    else Some(Join([CsvHeader] + CsvRows(participants.value), '\n'))
  }

  /** A field value free of line breaks. */
  predicate OneLine(v: Option<string>) {
    v.Some? ==> '\n' !in v.value
  }

  /** When no value holds a line break, the file splits back into the
      header and exactly one row per participant, in order. */
  lemma CsvLines(ps: seq<Person>)
    requires ps != []
    requires forall i :: 0 <= i < |ps| ==> OneLine(ps[i].name) && OneLine(ps[i].email) && OneLine(ps[i].year)
    ensures var lines := Split(ExportToCSV(Some(ps)).value, '\n');
      |lines| == |ps| + 1 && lines[0] == CsvHeader
      && forall i :: 0 <= i < |ps| ==> lines[i + 1] == CsvRow(ps[i])
  {
    var lines := [CsvHeader] + CsvRows(ps);
    forall i | 0 <= i < |lines| ensures '\n' !in lines[i] {
      if i > 0 {
        var p := ps[i - 1];
        assert lines[i] == Quote(p.name) + "," + Quote(p.email) + "," + Quote(p.year);
      }
    }
    SplitJoin(lines, '\n');
  }

  /** Because quotes are not escaped, different participants can give the
      same row: a name holding `","` reads back as two fields. */
  lemma CsvRowAmbiguous()
    ensures var p := Person(Some("a\",\"b"), Some("c"), None);
      var q := Person(Some("a"), Some("b\",\"c"), None);
      p != q && CsvRow(p) == CsvRow(q)
  {
    var p := Person(Some("a\",\"b"), Some("c"), None);
    var q := Person(Some("a"), Some("b\",\"c"), None);
    assert p.name != q.name by { assert |p.name.value| != |q.name.value|; }
    assert CsvRow(p) == "\"a\",\"b\",\"c\",\"\"";
    assert CsvRow(q) == "\"a\",\"b\",\"c\",\"\"";
  }

  /** The add/edit form. */
  datatype EventForm = EventForm(
    name: string, date: string, description: string, venue: string,
    category: string, image: string, registrationRequired: bool)

  const EmptyForm: EventForm := EventForm("", "", "", "", "", "", true)

  /** The component's state that the modal handlers touch. */
  class Dashboard {
    var events: seq<ApiEvent>
    var filter: string
    var searchQuery: string
    var showModal: bool
    var modalType: string
    var selectedEvent: Option<ApiEvent>
    var eventForm: EventForm

    constructor()
      ensures events == [] && filter == "all" && searchQuery == ""
      ensures !showModal && modalType == "" && selectedEvent.None? && eventForm == EmptyForm
    {
      events, filter, searchQuery := [], "all", "";
      showModal, modalType, selectedEvent, eventForm := false, "", None, EmptyForm;
    }

    /** `closeModal`: hides the modal, forgets the selection and resets the
      form to empty text with registration required. */
    method CloseModal()
      modifies this
      ensures !showModal && modalType == "" && selectedEvent.None?
      ensures eventForm == EmptyForm && eventForm.registrationRequired
      ensures events == old(events) && filter == old(filter) && searchQuery == old(searchQuery)
    {
      showModal := false;
      modalType := "";
      selectedEvent := None;
      eventForm := EmptyForm;
    }
  }
}
