/** The stand-alone demonstration dashboard (components/dummy.js): its own
    sample events, a status computed against a fixed simulated date by
    string comparison, local add/edit/delete handlers, an unquoted CSV
    export and the sidebar's navigation rule. */
module DemoDashboard {
  import opened Wrappers
  import opened Seqs
  import opened Text
  import CoordinatorDashboard

  type Phase = CoordinatorDashboard.Phase

  datatype DemoPerson = DemoPerson(id: int, name: string, email: string, branch: string, year: string, regId: string)

  /** A demonstration event; `date` is the "YYYY-MM-DD" string itself. */
  datatype DemoEvent = DemoEvent(
    id: int, title: string, date: string, description: string, venue: string,
    category: string, image: string, participants: seq<DemoPerson>)

  /** The date the demonstration treats as today. */
  const SimulatedToday: string := "2025-10-24"

  /** The four sample events, with their dates and participants. */
  const InitialEvents: seq<DemoEvent> := [
    DemoEvent(1, "Tech Workshop: Web Development Basics", "2025-10-24",
      "Learn the fundamentals of web development including HTML, CSS, and JavaScript.",
      "Computer Lab - Block A", "Workshop",
      "https://images.unsplash.com/photo-1517694712202-14dd9538aa97?w=400&h=250&fit=crop",
      [DemoPerson(1, "Rahul Sharma", "rahul@college.edu", "CSE", "3rd", "REG001"),
       DemoPerson(2, "Priya Patel", "priya@college.edu", "IT", "2nd", "REG002"),
       DemoPerson(3, "Amit Kumar", "amit@college.edu", "CSE", "3rd", "REG003")]),
    DemoEvent(2, "Annual Hackathon 2025", "2025-12-01",
      "24-hour coding marathon with exciting prizes and challenges.",
      "Main Auditorium", "Competition",
      "https://images.unsplash.com/photo-1504384308090-c894fdcc538d?w=400&h=250&fit=crop",
      [DemoPerson(4, "Sneha Reddy", "sneha@college.edu", "ECE", "4th", "REG004"),
       DemoPerson(5, "Vikram Singh", "vikram@college.edu", "CSE", "3rd", "REG005")]),
    DemoEvent(3, "Guest Lecture: AI & Machine Learning", "2025-09-20",
      "Industry expert shares insights on AI trends and career opportunities.",
      "Seminar Hall 2", "Seminar",
      "https://images.unsplash.com/photo-1485827404703-89b55fcc595e?w=400&h=250&fit=crop",
      [DemoPerson(6, "Anjali Menon", "anjali@college.edu", "IT", "2nd", "REG006"),
       DemoPerson(7, "Rohan Gupta", "rohan@college.edu", "CSE", "4th", "REG007"),
       DemoPerson(8, "Kavya Nair", "kavya@college.edu", "ECE", "3rd", "REG008")]),
    DemoEvent(4, "Cultural Fest Opening Ceremony", "2025-10-10",
      "Grand opening of our annual cultural festival.",
      "Open Ground", "Cultural",
      "https://images.unsplash.com/photo-1492684223066-81342ee5ff30?w=400&h=250&fit=crop",
      [DemoPerson(9, "Divya Krishnan", "divya@college.edu", "ME", "2nd", "REG009")])
  ]

  /** `getEventStatus`: equal to the simulated date is ongoing, greater as
      a string is upcoming, anything else is completed. */
  function DemoStatus(date: string): (ph: Phase)
    ensures ph == CoordinatorDashboard.Ongoing <==> date == SimulatedToday
    ensures ph == CoordinatorDashboard.Upcoming <==> LexLess(SimulatedToday, date)
    ensures ph == CoordinatorDashboard.Completed <==> LexLess(date, SimulatedToday)
  {
    LexLessAsymmetric(date, SimulatedToday);
    LexLessAsymmetric(SimulatedToday, date);
    if date == SimulatedToday then CoordinatorDashboard.Ongoing
    else
      LexLessTotal(date, SimulatedToday);
      if LexLess(SimulatedToday, date) then CoordinatorDashboard.Upcoming
      else CoordinatorDashboard.Completed
  }

  /** The statuses of the four sample dates against the simulated one,
      one date per lemma. */
  lemma SampleOngoing()
    ensures DemoStatus("2025-10-24") == CoordinatorDashboard.Ongoing
  {
  }

  lemma SampleUpcoming()
    ensures DemoStatus("2025-12-01") == CoordinatorDashboard.Upcoming
  {
    LexLessAt(SimulatedToday, "2025-12-01", 6);
  }

  lemma SampleCompleted()
    ensures DemoStatus("2025-09-20") == CoordinatorDashboard.Completed
    ensures DemoStatus("2025-10-10") == CoordinatorDashboard.Completed
  {
    LexLessAt("2025-09-20", SimulatedToday, 5);
    LexLessAt("2025-10-10", SimulatedToday, 8);
  }

  /** The statuses the sample data is annotated with: the first event is
      ongoing, the second upcoming, the third and fourth completed. */
  lemma SampleStatuses()
    ensures DemoStatus(InitialEvents[0].date) == CoordinatorDashboard.Ongoing
    ensures DemoStatus(InitialEvents[1].date) == CoordinatorDashboard.Upcoming
    ensures DemoStatus(InitialEvents[2].date) == CoordinatorDashboard.Completed
    ensures DemoStatus(InitialEvents[3].date) == CoordinatorDashboard.Completed
  {
    SampleOngoing();
    SampleUpcoming();
    SampleCompleted();
  }

  function StatusOf(): DemoEvent -> Phase {
    (e: DemoEvent) => DemoStatus(e.date)
  }

  /** `totalParticipants`: every demonstration event has a list. */
  function TotalParticipants(events: seq<DemoEvent>): nat {
    if events == [] then 0
    else TotalParticipants(events[..|events| - 1]) + |events[|events| - 1].participants|
  }

  /** The total of two lists side by side is the sum of their totals. */
  lemma {:induction false} TotalAppend(a: seq<DemoEvent>, b: seq<DemoEvent>)
    ensures TotalParticipants(a + b) == TotalParticipants(a) + TotalParticipants(b)
  {
    if b == [] {
      assert a + b == a;
    } else {
      var b' := b[..|b| - 1];
      TotalAppend(a, b');
      assert (a + b)[..|a + b| - 1] == a + b';
    }
  }

  predicate MatchesSearch(e: DemoEvent, query: string) {
    Contains(Lower(e.title), Lower(query)) || Contains(Lower(e.category), Lower(query))
  }

  function Search(query: string): DemoEvent -> bool {
    (e: DemoEvent) => MatchesSearch(e, query)
  }

  /** The list before the search: the completed bucket in the "completed"
      view; in the "events" view the bucket the tab names, or everything
      for "all"; every event in any other view. */
  function ViewEvents(events: seq<DemoEvent>, currentView: string, filter: string): seq<DemoEvent> {
    var bucket := (ph: Phase) => CoordinatorDashboard.Bucket(events, StatusOf(), ph);
    if currentView == "completed" then bucket(CoordinatorDashboard.Completed)
    else if currentView == "events" then
      if filter == "upcoming" then bucket(CoordinatorDashboard.Upcoming)
      else if filter == "ongoing" then bucket(CoordinatorDashboard.Ongoing)
      else if filter == "completed" then bucket(CoordinatorDashboard.Completed)
      else events
    else events
  }

  /** `filteredEvents`: the view's list, narrowed by a non-empty search. */
  function FilteredEvents(events: seq<DemoEvent>, currentView: string, filter: string, query: string): (r: seq<DemoEvent>)
    ensures query == [] ==> r == ViewEvents(events, currentView, filter)
    ensures forall e :: e in r <==> e in ViewEvents(events, currentView, filter) && (query != [] ==> MatchesSearch(e, query))
    ensures forall e :: multiset(r)[e] == if query == [] || MatchesSearch(e, query) then multiset(ViewEvents(events, currentView, filter))[e] else 0
    ensures IsSubseq(r, ViewEvents(events, currentView, filter))
  {
    var pool := ViewEvents(events, currentView, filter);
    FilterCounts(Search(query), pool);
    FilterIsSubseq(Search(query), pool);
    SubseqRefl(pool);
    if query != [] then Filter(Search(query), pool) else pool
  }

  /** Outside the "events" and "completed" views the tab is ignored. */
  lemma OtherViewsIgnoreTab(events: seq<DemoEvent>, view: string, filter: string, query: string)
    requires view != "events" && view != "completed"
    ensures FilteredEvents(events, view, filter, query) == FilteredEvents(events, view, "all", query)
  {
  }

  const DemoHeader: string := "Name,Email,Branch,Year,Registration ID"

  /** A row: the five values joined by commas, nothing quoted. */
  function DemoRow(p: DemoPerson): string {
    p.name + "," + p.email + "," + p.branch + "," + p.year + "," + p.regId
  }

  function DemoRows(ps: seq<DemoPerson>): (r: seq<string>)
    ensures |r| == |ps|
    ensures forall i :: 0 <= i < |ps| ==> r[i] == DemoRow(ps[i])
  {
    seq(|ps|, i requires 0 <= i < |ps| => DemoRow(ps[i]))
  }

  /** The CSV content: the header and one row per participant, joined by
      newlines. Unlike the live dashboard, an empty list still yields the
      header. */
  function DemoCsv(ps: seq<DemoPerson>): (r: string)
    ensures ps == [] ==> r == DemoHeader
  {
    Join([DemoHeader] + DemoRows(ps), '\n')
  }

  predicate PersonOneLine(p: DemoPerson) {
    '\n' !in p.name && '\n' !in p.email && '\n' !in p.branch && '\n' !in p.year && '\n' !in p.regId
  }

  /** A row built from values without line breaks has none. */
  lemma DemoRowOneLine(p: DemoPerson)
    requires PersonOneLine(p)
    ensures '\n' !in DemoRow(p)
  {
    assert DemoRow(p) == p.name + "," + p.email + "," + p.branch + "," + p.year + "," + p.regId;
  }

  /** With no line break in any value the file has one line per
      participant after the header. */
  lemma DemoCsvLines(ps: seq<DemoPerson>)
    requires forall i :: 0 <= i < |ps| ==> PersonOneLine(ps[i])
    ensures var lines := Split(DemoCsv(ps), '\n');
      |lines| == |ps| + 1 && lines[0] == DemoHeader
      && forall i :: 0 <= i < |ps| ==> lines[i + 1] == DemoRow(ps[i])
  {
    var lines := [DemoHeader] + DemoRows(ps);
    forall i | 0 <= i < |lines| ensures '\n' !in lines[i] {
      if i > 0 {
        DemoRowOneLine(ps[i - 1]);
      }
    }
    SplitJoin(lines, '\n');
  }

  /** `title.replace(/\s+/g, '_')`: each run of white space becomes one
      underscore. */
  function UnderscoreSpaces(s: string): (r: string)
    ensures |r| <= |s|
    ensures forall i :: 0 <= i < |r| ==> !IsSpace(r[i])
    decreases |s|
  {
    if s == [] then []
    else if IsSpace(s[0]) then
      var rest := TrimStart(s);
      assert |rest| < |s|;
      "_" + UnderscoreSpaces(rest)
    else [s[0]] + UnderscoreSpaces(s[1..])
  }

  /** A run of white space, followed by anything that does not start with
      white space, turns into a single underscore. */
  lemma UnderscoreRun(gap: string, rest: string)
    requires gap != [] && forall i :: 0 <= i < |gap| ==> IsSpace(gap[i])
    requires rest == [] || !IsSpace(rest[0])
    ensures UnderscoreSpaces(gap + rest) == "_" + UnderscoreSpaces(rest)
  {
    TrimStartRun(gap, rest);
  }

  lemma UnderscoreHead(s: string)
    requires s != [] && !IsSpace(s[0])
    ensures UnderscoreSpaces(s) == [s[0]] + UnderscoreSpaces(s[1..])
  {
  }

  /** Characters other than white space are copied, in order. */
  lemma {:induction false} UnderscoreKeepsWord(word: string, rest: string)
    requires forall i :: 0 <= i < |word| ==> !IsSpace(word[i])
    ensures UnderscoreSpaces(word + rest) == word + UnderscoreSpaces(rest)
  {
    if word != [] {
      var s := word + rest;
      assert s[0] == word[0] && s[1..] == word[1..] + rest;
      UnderscoreHead(s);
      UnderscoreKeepsWord(word[1..], rest);
      var u := UnderscoreSpaces(rest);
      assert UnderscoreSpaces(s) == [word[0]] + (word[1..] + u);
      assert [word[0]] + (word[1..] + u) == word + u;
    } else {
      assert word + rest == rest;
    }
  }

  /** A title without white space is used as it is. */
  lemma UnderscoreNoSpace(s: string)
    requires forall i :: 0 <= i < |s| ==> !IsSpace(s[i])
    ensures UnderscoreSpaces(s) == s
  {
    UnderscoreKeepsWord(s, []);
    assert s + [] == s;
  }

  const FileSuffix: string := "_participants.csv"

  lemma FileSuffixHasNoSpace()
    ensures forall i :: 0 <= i < |FileSuffix| ==> !IsSpace(FileSuffix[i])
  {
  }

  /** The download name for an event title. */
  function CsvFileName(title: string): (r: string)
    ensures r == UnderscoreSpaces(title) + FileSuffix
    ensures |r| >= |FileSuffix| && r[|r| - |FileSuffix|..] == FileSuffix
    ensures forall i :: 0 <= i < |r| ==> !IsSpace(r[i])
  {
    FileSuffixHasNoSpace();
    UnderscoreSpaces(title) + FileSuffix
  }

  /** The add/edit form of the demonstration. */
  datatype DemoForm = DemoForm(
    title: string, date: string, description: string, venue: string, category: string, image: string)

  const BlankForm: DemoForm := DemoForm("", "", "", "", "", "")

  /** `{ id: Date.now(), ...eventForm, participants: [] }`. */
  function NewEvent(stamp: int, form: DemoForm): (e: DemoEvent)
    ensures e.id == stamp && e.participants == []
    ensures e.title == form.title && e.date == form.date && e.description == form.description
    ensures e.venue == form.venue && e.category == form.category && e.image == form.image
  {
    DemoEvent(stamp, form.title, form.date, form.description, form.venue, form.category, form.image, [])
  }

  /** `{ ...event, ...eventForm }`: the form's six fields over the event's;
      id and participants are kept. */
  function Merge(e: DemoEvent, form: DemoForm): (r: DemoEvent)
    ensures r.id == e.id && r.participants == e.participants
    ensures r.title == form.title && r.date == form.date && r.description == form.description
    ensures r.venue == form.venue && r.category == form.category && r.image == form.image
  {
    e.(title := form.title, date := form.date, description := form.description,
       venue := form.venue, category := form.category, image := form.image)
  }

  /** The edit's map: events with the id are merged, the rest untouched. */
  function EditMatching(events: seq<DemoEvent>, id: int, form: DemoForm): (r: seq<DemoEvent>)
    ensures |r| == |events|
    ensures forall i :: 0 <= i < |events| ==> r[i] == (if events[i].id == id then Merge(events[i], form) else events[i])
  {
    seq(|events|, i requires 0 <= i < |events| => if events[i].id == id then Merge(events[i], form) else events[i])
  }

  /** "Not the pending id"; with nothing pending every event passes. */
  function NotPending(pending: Option<int>): DemoEvent -> bool {
    (e: DemoEvent) => pending.None? || e.id != pending.value
  }

  /** The delete's filter: exactly the events with the pending id go. */
  function DeletePending(events: seq<DemoEvent>, pending: Option<int>): (r: seq<DemoEvent>)
    ensures forall e :: e in r <==> e in events && (pending.Some? ==> e.id != pending.value)
    ensures IsSubseq(r, events)
    ensures pending.None? ==> r == events
    ensures forall e :: multiset(r)[e] == if pending.Some? && e.id == pending.value then 0 else multiset(events)[e]
  {
    FilterIsSubseq(NotPending(pending), events);
    FilterCounts(NotPending(pending), events);
    if pending.None? then
      FilterKeepsAll(NotPending(pending), events);
      Filter(NotPending(pending), events)
    else Filter(NotPending(pending), events)
  }

  class Demo {
    var events: seq<DemoEvent>
    var currentView: string
    var filter: string
    var searchQuery: string
    var showModal: bool
    var modalType: string
    var selectedEvent: Option<DemoEvent>
    var showConfirm: bool
    var deletingEventId: Option<int>
    var sidebarOpen: bool
    var eventForm: DemoForm

    constructor()
      ensures events == InitialEvents && currentView == "dashboard" && filter == "all" && searchQuery == ""
      ensures !showModal && modalType == "" && selectedEvent.None?
      ensures !showConfirm && deletingEventId.None? && !sidebarOpen && eventForm == BlankForm
    {
      events, currentView, filter, searchQuery := InitialEvents, "dashboard", "all", "";
      showModal, modalType, selectedEvent := false, "", None;
      showConfirm, deletingEventId, sidebarOpen, eventForm := false, None, false, BlankForm;
    }

    /** `closeModal`: unlike the live dashboard, the form is left as it is. */
    method CloseModal()
      modifies this
      ensures !showModal && modalType == "" && selectedEvent.None?
      ensures events == old(events) && eventForm == old(eventForm)
      ensures currentView == old(currentView) && filter == old(filter) && searchQuery == old(searchQuery)
      ensures showConfirm == old(showConfirm) && deletingEventId == old(deletingEventId)
      ensures sidebarOpen == old(sidebarOpen)
    {
      showModal := false;
      modalType := "";
      selectedEvent := None;
    }

    /** `handleAddEvent`: the new event goes first with no participants;
        the others follow in their order. */
    method HandleAddEvent(stamp: int)
      modifies this
      ensures events == [NewEvent(stamp, old(eventForm))] + old(events)
      ensures events[0].participants == [] && events[1..] == old(events)
      ensures !showModal && modalType == "" && selectedEvent.None?
      ensures eventForm == old(eventForm)
      ensures currentView == old(currentView) && filter == old(filter) && searchQuery == old(searchQuery)
      ensures showConfirm == old(showConfirm) && deletingEventId == old(deletingEventId)
      ensures sidebarOpen == old(sidebarOpen)
    {
      events := [NewEvent(stamp, eventForm)] + events;
      CloseModal();
    }

    /** `handleEditEvent`, which reads the selected event's id. */
    method HandleEditEvent()
      requires selectedEvent.Some?
      modifies this
      ensures events == EditMatching(old(events), old(selectedEvent).value.id, old(eventForm))
      ensures !showModal && modalType == "" && selectedEvent.None?
      ensures eventForm == old(eventForm)
      ensures currentView == old(currentView) && filter == old(filter) && searchQuery == old(searchQuery)
      ensures showConfirm == old(showConfirm) && deletingEventId == old(deletingEventId)
      ensures sidebarOpen == old(sidebarOpen)
    {
      events := EditMatching(events, selectedEvent.value.id, eventForm);
      CloseModal();
    }

    method HandleDeleteClick(eventId: int)
      modifies this
      ensures deletingEventId == Some(eventId) && showConfirm
      ensures events == old(events) && eventForm == old(eventForm)
      ensures currentView == old(currentView) && filter == old(filter) && searchQuery == old(searchQuery)
      ensures showModal == old(showModal) && modalType == old(modalType) && selectedEvent == old(selectedEvent)
      ensures sidebarOpen == old(sidebarOpen)
    {
      deletingEventId := Some(eventId);
      showConfirm := true;
    }

    /** `confirmDelete`: the pending event goes and the pending state clears. */
    method ConfirmDelete()
      modifies this
      ensures events == DeletePending(old(events), old(deletingEventId))
      ensures deletingEventId.None? && !showConfirm
      ensures eventForm == old(eventForm)
      ensures currentView == old(currentView) && filter == old(filter) && searchQuery == old(searchQuery)
      ensures showModal == old(showModal) && modalType == old(modalType) && selectedEvent == old(selectedEvent)
      ensures sidebarOpen == old(sidebarOpen)
    {
      events := DeletePending(events, deletingEventId);
      deletingEventId := None;
      showConfirm := false;
    }

    /** A sidebar click: "completed" opens the events view on the completed
        tab; any other item opens its view with the tab reset to "all". The
        sidebar closes either way. */
    method NavigateTo(view: string)
      modifies this
      ensures view == "completed" ==> filter == "completed" && currentView == "events"
      ensures view != "completed" ==> filter == "all" && currentView == view
      ensures currentView != "completed"
      ensures !sidebarOpen && events == old(events) && eventForm == old(eventForm)
      ensures searchQuery == old(searchQuery)
      ensures showModal == old(showModal) && modalType == old(modalType) && selectedEvent == old(selectedEvent)
      ensures showConfirm == old(showConfirm) && deletingEventId == old(deletingEventId)
    {
      currentView := view;
      if view == "completed" {
        filter := "completed";
        currentView := "events";
      } else {
        filter := "all";
      }
      sidebarOpen := false;
    }
  }
}
