# EOC event management — a Dafny model of its core

EOC is a college event-management application. An Express/Mongoose server
keeps events and users in MongoDB. Students register for events and
unregister from them. Coordinators create events, delete them and read
their rosters. A React client lists events, splits them into upcoming and
past, colours them by category, offers the register button, counts
notifications and exports rosters as CSV.

This project models:

- the two Mongoose schemas: their defaults, setters and save-time validation;
- the registration endpoints of the event controller, as methods on a
  `Database.Store` object that holds the `events` and `users` collections
  as maps;
- the profile endpoints of the user controller;
- the pure computations of the client components;
- the three stateful client components, as classes: the coordinator
  dashboard (`CoordinatorDashboard.Dashboard`), the student dashboard
  (`StudentDashboard.Dashboard`) and the sample dashboard in `dummy.js`
  (`DemoDashboard.Demo`).

The central invariant is `Registrations.Consistent`. It holds when:

- a user is in an event's `participants` exactly when the event is in that
  user's `registeredEvents`;
- no id on either list is missing from its collection;
- neither list holds a duplicate.

Every successful write except `deleteUserAccount` keeps this invariant.
The model also proves the two ways the source can break it. When the user
record is missing, `registerEvent` answers 404 after it has already saved
the event with the new participant. `deleteUserAccount` leaves the user's
id in the participants of their events.

Dates are instants in milliseconds. "Truncated to the day" is `Clock.DayOf`,
the whole number of days since the epoch. The request's clock reading
(`new Date()`, `Date.now()`) is a parameter `now`. The client's sample
dashboard in `dummy.js` compares `"YYYY-MM-DD"` strings with `<`, and that
comparison is modelled as string order (`Text.LexLess`).

## Model

| member | source | states |
|---|---|---|
| EventSchema.Create | EOC-backend/models/Event.js:5-73 | saving fails exactly when a required field is missing or an enum value is off the list, and then reports exactly those fields; a saved event is valid, keeps the supplied name, theme, description, category, date and creator, starts with no participants, and takes the defaults upcoming, registration required, eligibility "all" and the placeholder image for fields left out |
| EventSchema.CreateDefaults | EOC-backend/models/Event.js:16-19 | an event given only its required fields saves with all of its defaults |
| EventSchema.Violations | EOC-backend/models/Event.js:5-47 | the paths reported on save: a missing or empty name, a missing or unlisted category, a missing date, an unlisted status and a missing creator (the meaning `Create` proves against) |
| UserSchema.NormalizeEmail | EOC-backend/models/User.js:9-14 | the stored email is the lower-cased address with exactly the white space at both ends cut off: a contiguous part of it with only white space outside, no upper-case letter, and no white space at either end |
| UserSchema.NormalizeEmailIdempotent | EOC-backend/models/User.js:13-14 | the lowercase and trim setters leave an already stored address unchanged |
| UserSchema.DefaultAvatar | EOC-backend/models/User.js:44-50 | the default avatar is one character: the upper-cased first letter of a truthy name, else "U" |
| UserSchema.Create | EOC-backend/models/User.js:3-57 | saving fails exactly when a field rule is broken, and then reports exactly the failing fields; a saved user is valid and registered for nothing, keeps the supplied password, role and year, stores the name trimmed and the email normalised, defaults bio to "", and keeps a supplied avatar or else derives it from the saved name |
| UserSchema.Violations | EOC-backend/models/User.js:3-43 | the paths reported on save: a missing name or one that trims to empty, a missing email or one that normalises to empty, a missing password or one shorter than 6, a role other than "student" or "coordinator", a missing year for a student or a year off the list, a bio over 500 characters |
| UserSchema.YearRequiredOnlyForStudents | EOC-backend/models/User.js:32-38 | a missing year is reported exactly when the role is "student" |
| Registrations.RemoveRegisteredEvent | EOC-backend/controllers/event.js:215-221 | the user's list loses the event and nothing else changes; an unknown user leaves the collection alone |
| Registrations.AddParticipant | EOC-backend/controllers/event.js:123 | the event's participant list with the user appended; `AddParticipantOnce` and `RegisterKeepsConsistent` state what that does |
| Registrations.AddRegisteredEvent | EOC-backend/controllers/event.js:139-146 | the user's list with the event appended unless it is already there; `AddRegisteredEventKeepsDistinct` states what that does |
| Registrations.RemoveParticipant | EOC-backend/controllers/event.js:210-212 | the event's participant list with every occurrence of the user removed; `UnregisterKeepsConsistent` states what that does |
| Registrations.PullRegisteredEvent | EOC-backend/controllers/event.js:347-356 | exactly the listed users lose every occurrence of the event from `registeredEvents`, every other entry keeping its multiplicity and order; nothing else about any user changes |
| Registrations.AddParticipantOnce | EOC-backend/controllers/event.js:110-124 | after the duplicate check, the append keeps the participant list duplicate-free and holds the new user once |
| Registrations.AddRegisteredEventKeepsDistinct | EOC-backend/controllers/event.js:139-146 | the guarded append to `registeredEvents` keeps that list duplicate-free and contains the event |
| Registrations.RegisterKeepsConsistent | EOC-backend/controllers/event.js:122-146 | registering an existing user who is not yet a participant keeps the two-sided invariant |
| Registrations.MissingUserBreaksConsistency | EOC-backend/controllers/event.js:122-133 | after the 404 for a missing user, the saved event names a user who does not exist |
| Registrations.UnregisterKeepsConsistent | EOC-backend/controllers/event.js:209-222 | removing both sides of a registration keeps the invariant |
| Registrations.DeleteKeepsConsistent | EOC-backend/controllers/event.js:347-359 | deleting an event and pulling it from its participants keeps the invariant |
| Registrations.DeleteUserLeavesDangling | EOC-backend/controllers/user.js:103 | deleting a registered user leaves their id dangling in an event's participants |
| Registrations.ReplaceUserKeepsConsistent | EOC-backend/controllers/user.js:58-69 | a profile save that keeps `registeredEvents` keeps the invariant |
| EventController.StatusCode | EOC-backend/controllers/event.js:79-163 | each outcome's HTTP code: 200 only for success, 404 for a missing event or user, 403 for a forbidden delete, 400 otherwise |
| EventController.IsClosed | EOC-backend/controllers/event.js:98-108 | registration is closed when the event's day is before today's or it is marked completed; `SameDayIsOpen` and `ClosedStaysClosed` state its properties |
| EventController.MayManage | EOC-backend/controllers/event.js:340 | only the event's creator or a caller with role "admin" may delete it; `DeleteEvent` answers 403 otherwise |
| EventController.MatchesQuery | EOC-backend/controllers/event.js:14-20 | a truthy status or category must match exactly, a missing or empty one filters nothing; `GetAllEvents` selects by it |
| EventController.SameDayIsOpen | EOC-backend/controllers/event.js:98-108 | an event is still open for its whole calendar day, even after its start time |
| EventController.ClosedStaysClosed | EOC-backend/controllers/event.js:98-108 | once closed, an event stays closed at every later instant |
| EventController.RegisterEvent | EOC-backend/controllers/event.js:72-164 | the guards in source order (404, not required, closed, already registered, user 404); on success both sides are appended and the invariant is kept; on a missing user the event write has already happened |
| EventController.RemoveRegistration | EOC-backend/controllers/event.js:209-222 | the two-sided removal: the user leaves the participants and the event leaves the user's list |
| EventController.UnregisterEvent | EOC-backend/controllers/event.js:167-240 | the guards in source order (404 for an unknown event, 400 when closed, 400 when not registered); on success both sides are removed and the invariant is kept; any failure writes nothing |
| EventController.RemoveUserRegistration | EOC-backend/controllers/event.js:405-463 | the coordinator's removal with no date check: 404, 400 when not a participant, else the two-sided removal that keeps the invariant |
| EventController.DeleteEvent | EOC-backend/controllers/event.js:322-371 | 404 for an unknown event, 403 unless the caller created the event or is an admin; on success the event is removed and pulled from every participant, keeping the invariant |
| EventController.Roster | EOC-backend/controllers/event.js:374-402 | the roster's ids are exactly the participants that name a stored user, in list order; each entry carries that user's stored name, email and year |
| EventController.RosterComplete | EOC-backend/controllers/event.js:380-392 | with no dangling participant, the roster has one entry per participant, in the same order |
| EventController.RosterDropsMissing | EOC-backend/controllers/event.js:380-392 | a participant whose user is gone is silently left out of the roster and its count |
| EventController.GetEventRegistrations | EOC-backend/controllers/event.js:374-402 | 404 exactly for an unknown event; `count` is the length of the returned roster, and equals the number of participants when the store is consistent |
| EventController.GetAllEvents | EOC-backend/controllers/event.js:9-38 | the result is the events whose status and category match the truthy query parameters; with neither given it is every event |
| UserController.StatusCode | EOC-backend/controllers/user.js:33-89 | 200 on success, 404 for a missing user, 400 for an email in use, 500 for a failed save |
| UserController.EmailTaken | EOC-backend/controllers/user.js:47-56 | the lookup runs only for a truthy email other than the stored one, and finds a user whose stored email is the normalised address |
| UserController.Apply | EOC-backend/controllers/user.js:58-67 | each field changes only when the body gives a truthy value (bio whenever present); a new name is trimmed, the avatar comes from the name as sent; password, role and registrations are kept |
| UserController.UpdateUserProfile | EOC-backend/controllers/user.js:33-89 | 404 for an unknown user, 400 when the email belongs to someone, 500 when the result fails validation; only success writes, it writes exactly `Apply`, and it keeps the invariant |
| UserController.EmptyUpdateChangesNothing | EOC-backend/controllers/user.js:58-67 | a body with no fields leaves the profile as it was |
| UserController.SameEmailSkipsLookup | EOC-backend/controllers/user.js:48 | resending the stored email byte for byte never reports it as taken |
| UserController.OwnEmailRecasedIsTaken | EOC-backend/controllers/user.js:47-56 | resending one's own email in another letter case is reported as in use by oneself |
| UserController.AvatarFromUntrimmedName | EOC-backend/controllers/user.js:58-67 | a name with leading space is stored trimmed, while the avatar takes the untrimmed first character |
| UserController.DeleteUserAccount | EOC-backend/controllers/user.js:92-117 | 404 exactly for an unknown user; otherwise the user is removed and the events are left as they were |
| ClientEvents.CurrentPastComplement | EOC-frontend/src/components/EOCLandingPage/EOCLandingPage.jsx:38-48 | every event is either current or past, never both |
| ClientEvents.IsCurrent | EOC-frontend/src/components/EOCLandingPage/EOCLandingPage.jsx:37-41 | the event's day is today or later and it is not marked completed |
| ClientEvents.IsPast | EOC-frontend/src/components/EOCLandingPage/EOCLandingPage.jsx:43-47 | the event's day has passed or it is marked completed; `CurrentPastComplement` proves it is the negation of `IsCurrent` |
| ClientEvents.IsRegistrationOpen | EOC-frontend/src/components/EventCard/EventCard.jsx:17-31 | open when registration is required and the event is current; `EventCard.OpenIsNotClosed` ties it to the server's closed test |
| CoordinatorDashboard.EventStatus | EOC-frontend/src/components/CoordinatorDashboard/CoordinatorDashboard.jsx:42-53 | by calendar day alone (the stored status plays no part): ongoing on the event's own day, upcoming when its day is later than today, completed when earlier |
| CoordinatorDashboard.StatusMovesForward | EOC-frontend/src/components/CoordinatorDashboard/CoordinatorDashboard.jsx:42-53 | as time passes, a status never goes back (upcoming, then ongoing, then completed) |
| CoordinatorDashboard.Categorize | EOC-frontend/src/components/CoordinatorDashboard/CoordinatorDashboard.jsx:55-59 | the three buckets are the events in each phase, in list order |
| CoordinatorDashboard.BucketsPartition | EOC-frontend/src/components/CoordinatorDashboard/CoordinatorDashboard.jsx:55-59 | every event lands in exactly one bucket; the buckets together are a permutation of the list |
| CoordinatorDashboard.TotalAppend | EOC-frontend/src/components/CoordinatorDashboard/CoordinatorDashboard.jsx:62 | the participant total is additive over concatenation; an event without a participant list counts 0 |
| CoordinatorDashboard.TotalParticipants | EOC-frontend/src/components/CoordinatorDashboard/CoordinatorDashboard.jsx:62 | the sum of the events' participant counts, a missing list counting 0; `TotalAppend` states its additivity |
| CoordinatorDashboard.FilteredEvents | EOC-frontend/src/components/CoordinatorDashboard/CoordinatorDashboard.jsx:64-77 | the dashboard tab shows every event and the other tabs their phase's bucket; a search keeps exactly the events whose name or category holds the term, case-insensitively, each as often as in the tab's list |
| CoordinatorDashboard.FilteredIsSubseq | EOC-frontend/src/components/CoordinatorDashboard/CoordinatorDashboard.jsx:64-77 | the shown events are a subsequence of the events, in the same order |
| CoordinatorDashboard.SearchIgnoresCase | EOC-frontend/src/components/CoordinatorDashboard/CoordinatorDashboard.jsx:70-75 | a search term and its lower-case form select the same events |
| CoordinatorDashboard.ExportToCSV | EOC-frontend/src/components/CoordinatorDashboard/CoordinatorDashboard.jsx:239-253 | nothing is exported when the roster is missing or empty; otherwise the header followed by one quoted row per participant |
| CoordinatorDashboard.CsvLines | EOC-frontend/src/components/CoordinatorDashboard/CoordinatorDashboard.jsx:243-253 | when no field holds a line break, splitting the file at newlines gives back the header and the rows |
| CoordinatorDashboard.CsvRowAmbiguous | EOC-frontend/src/components/CoordinatorDashboard/CoordinatorDashboard.jsx:248-252 | quotes are not escaped, so two different participants produce the same row |
| CoordinatorDashboard.Dashboard.CloseModal | EOC-frontend/src/components/CoordinatorDashboard/CoordinatorDashboard.jsx:138-151 | closing the modal hides it, clears the selection and resets the form to empty |
| EventCard.CategoryColor | EOC-frontend/src/components/EventCard/EventCard.jsx:34-51 | a category on the palette gets its colour; any other gets the fallback grey |
| EventCard.PaletteCoversSchema | EOC-frontend/src/components/EventCard/EventCard.jsx:34-51 | every category the schema allows has a palette entry, and every one except "other" gets its own colour |
| EventCard.CardAction | EOC-frontend/src/components/EventCard/EventCard.jsx:132-161 | the card shows "no registration" exactly when none is required, "register" exactly when open and not registered, "registered" exactly when open and registered, "closed" otherwise |
| EventCard.StatusBadge | EOC-frontend/src/components/EventCard/EventCard.jsx:77-86 | a badge appears exactly for the statuses upcoming and completed |
| EventCard.OpenIsNotClosed | EOC-frontend/src/components/EventCard/EventCard.jsx:17-31 | the card's open test agrees with the server's closed test for the same event and instant |
| EventDetailsModal.IsCompleted | EOC-frontend/src/components/EventDetailsModal/EventDetailsModal.jsx:33 | the modal's completed test compares full instants: past start or marked completed |
| EventDetailsModal.CompletedWhileOpen | EOC-frontend/src/components/EventDetailsModal/EventDetailsModal.jsx:20-33 | later on an event's own day, the modal calls the event completed while registration is still open |
| EventDetailsModal.NotCompletedIsOpen | EOC-frontend/src/components/EventDetailsModal/EventDetailsModal.jsx:20-33 | a required-registration event the modal does not call completed is open |
| EventDetailsModal.CategoryColor | EOC-frontend/src/components/EventDetailsModal/EventDetailsModal.jsx:36-46 | the modal's six-entry palette, with the same fallback grey |
| EventDetailsModal.PalettesDisagree | EOC-frontend/src/components/EventDetailsModal/EventDetailsModal.jsx:36-46 | card and modal agree on the modal's categories; a schema category outside them is grey in the modal but coloured on the card |
| EventDetailsModal.ModalAction | EOC-frontend/src/components/EventDetailsModal/EventDetailsModal.jsx:177-213 | the modal offers the same action as the card |
| MyEvents.EntryKey | EOC-frontend/src/components/MyEvents/MyEvents.jsx:12-17 | a raw id compares as itself; a populated entry compares by its `_id`, else as "[object Object]" |
| MyEvents.IsEventRegistered | EOC-frontend/src/components/MyEvents/MyEvents.jsx:12-17 | some entry of the user's list compares equal to the event id; `EntryFindsEvent` shows both kinds of entry are found |
| MyEvents.EntryFindsEvent | EOC-frontend/src/components/MyEvents/MyEvents.jsx:12-17 | an event is recognised as registered whether the user's list holds its raw id or a populated object |
| MyEvents.RegisteredEvents | EOC-frontend/src/components/MyEvents/MyEvents.jsx:20 | the registered events are exactly the events passed in whose id is recognised, each as often as passed in and in that order |
| MyEvents.SeparateEvents | EOC-frontend/src/components/MyEvents/MyEvents.jsx:23-42 | the loop puts each registered event in exactly one of upcoming and completed, in order; together they are a permutation of the registered events |
| MyEvents.UnregisterOnlyUpcoming | EOC-frontend/src/components/MyEvents/MyEvents.jsx:75-90 | an unregister button is offered only on current events, never on completed ones |
| MyEvents.Subtitle | EOC-frontend/src/components/MyEvents/MyEvents.jsx:62 | "You are registered for " followed by the decimal numeral of the count (digits denoting it, no leading zero) and " event", ending in the plural "s" exactly when the count is not 1 |
| LandingPage.Partition | EOC-frontend/src/components/EOCLandingPage/EOCLandingPage.jsx:38-48 | the upcoming and past lists split the fetched events exactly, each in fetched order |
| LandingPage.PastEvents | EOC-frontend/src/components/EOCLandingPage/EOCLandingPage.jsx:43-47 | the past list: fetched events that are past, in fetched order; `Partition` proves it complements the upcoming list |
| LandingPage.UpcomingEvents | EOC-frontend/src/components/EOCLandingPage/EOCLandingPage.jsx:37-41 | the upcoming list: fetched events that are current, in fetched order |
| LandingPage.Preview | EOC-frontend/src/components/EOCLandingPage/EOCLandingPage.jsx:273-274 | a description up to 100 characters is shown whole; a longer one is cut to 100 and followed by "..." |
| LandingPage.EventImage | EOC-frontend/src/components/EOCLandingPage/EOCLandingPage.jsx:101-103 | a truthy image is used, otherwise the schema's placeholder; the URL is never empty |
| MockEvents.LiveOverComplement | EOC-frontend/src/components/HomeOverview/HomeOverview.jsx:6-8 | each sample event is either live or over, never both |
| EventsList.VisibleEvents | EOC-frontend/src/components/EventsList/EventsList.jsx:16-31 | the successive filters equal one filter by live, matching the search and in the category; shown events are a subsequence of the events |
| EventsList.ResultsText | EOC-frontend/src/components/EventsList/EventsList.jsx:72 | "Showing " followed by the decimal numeral of the count and " event", ending in the plural "s" exactly when the count is not 1 |
| EventsList.IsRegistered | EOC-frontend/src/components/EventsList/EventsList.jsx:82 | a card is marked registered exactly when its id is among the registered ids |
| HomeOverview.UpcomingEvents | EOC-frontend/src/components/HomeOverview/HomeOverview.jsx:6 | at most three events: the first live events in list order, all of them when there are three or fewer |
| HomeOverview.CountsAddUp | EOC-frontend/src/components/HomeOverview/HomeOverview.jsx:6-8 | the live count and the completed count add up to the number of events |
| HomeOverview.CompletedCount | EOC-frontend/src/components/HomeOverview/HomeOverview.jsx:8 | the number of events flagged completed or already begun; `CountsAddUp` relates it to the live events |
| Notifications.Filtered | EOC-frontend/src/components/Notifications/Notifications.jsx:8-12 | "all" keeps the list; "unread" keeps exactly the unread notifications and any other value exactly the read ones, each as often as in the list and in list order |
| Notifications.ReadCountIsLengthMinusUnread | EOC-frontend/src/components/Notifications/Notifications.jsx:14-49 | the unread count and the read tab's length add up to the number of notifications |
| Notifications.UnreadCount | EOC-frontend/src/components/Notifications/Notifications.jsx:14 | the number of unread notifications; `ReadCountIsLengthMinusUnread` relates it to the read tab |
| Notifications.MarkReadOffered | EOC-frontend/src/components/Notifications/Notifications.jsx:69-77 | the mark-as-read button appears exactly on unread notifications |
| Notifications.Subtitle | EOC-frontend/src/components/Notifications/Notifications.jsx:27 | "All caught up!" exactly when nothing is unread; otherwise "You have " followed by the decimal numeral of the unread count and " unread notification", plural unless the count is 1 |
| StudentDashboard.FindEvent | EOC-frontend/src/components/StudentDashboard/StudentDashboard.jsx:20-37 | no event is found exactly when no event has the id; a found event is the first with that id |
| StudentDashboard.Confirmation | EOC-frontend/src/components/StudentDashboard/StudentDashboard.jsx:25-33 | an unread success notification with the given stamp as id, titled "Registration Confirmed", dated today, whose message is "Your registration for " then the event's title then " has been confirmed." |
| StudentDashboard.MarkRead | EOC-frontend/src/components/StudentDashboard/StudentDashboard.jsx:47-51 | notifications with the id become read and every other one is unchanged |
| StudentDashboard.DeleteNotification | EOC-frontend/src/components/StudentDashboard/StudentDashboard.jsx:53-55 | every notification with the id is removed and the rest keep their order |
| StudentDashboard.Dashboard.HandleRegister | EOC-frontend/src/components/StudentDashboard/StudentDashboard.jsx:20-37 | a new id is appended with a confirmation for the found event; an already registered id changes nothing; the id list stays duplicate-free |
| StudentDashboard.Dashboard.HandleUnregister | EOC-frontend/src/components/StudentDashboard/StudentDashboard.jsx:39-41 | every occurrence of the id is removed; other ids keep their order and multiplicity |
| StudentDashboard.Dashboard.HandleMarkAsRead | EOC-frontend/src/components/StudentDashboard/StudentDashboard.jsx:47-51 | the notifications become `MarkRead` of the old ones; registrations are untouched |
| StudentDashboard.Dashboard.HandleDeleteNotification | EOC-frontend/src/components/StudentDashboard/StudentDashboard.jsx:53-55 | the notifications become `DeleteNotification` of the old ones; registrations are untouched |
| DemoDashboard.DemoStatus | EOC-frontend/src/components/dummy.js:123-128 | by string order: upcoming when the date sorts after today, completed when before, ongoing when equal |
| DemoDashboard.SampleStatuses | EOC-frontend/src/components/dummy.js:16-70 | against the simulated day 2025-10-24 the four sample events are ongoing, upcoming, completed and completed |
| DemoDashboard.FilteredEvents | EOC-frontend/src/components/dummy.js:144-167 | the shown events are the chosen view's events that match the search, each as often as in the view and in the view's order |
| DemoDashboard.OtherViewsIgnoreTab | EOC-frontend/src/components/dummy.js:144-167 | on views other than the tabbed ones the list is every event, filtered by the search |
| DemoDashboard.DemoCsv | EOC-frontend/src/components/dummy.js:239-255 | the header "Name,Email,Branch,Year,Registration ID" followed by one row per participant; an empty roster still gives the header |
| DemoDashboard.DemoCsvLines | EOC-frontend/src/components/dummy.js:239-255 | with no line break in a field, splitting the file at newlines gives back the header and the rows |
| DemoDashboard.TotalParticipants | EOC-frontend/src/components/dummy.js:142 | the sum of the demonstration events' roster lengths |
| DemoDashboard.TotalAppend | EOC-frontend/src/components/dummy.js:142 | the participant total of two lists side by side is the sum of their totals |
| DemoDashboard.UnderscoreSpaces | EOC-frontend/src/components/dummy.js:252 | `replace(/\s+/g, '_')`: no longer than the title and free of white space; the three lemmas below pin down its output |
| DemoDashboard.UnderscoreRun | EOC-frontend/src/components/dummy.js:252 | a whole run of white space, however long, becomes one underscore |
| DemoDashboard.UnderscoreKeepsWord | EOC-frontend/src/components/dummy.js:252 | characters other than white space are copied unchanged and in order |
| DemoDashboard.UnderscoreNoSpace | EOC-frontend/src/components/dummy.js:252 | a title without white space is used as it is |
| DemoDashboard.CsvFileName | EOC-frontend/src/components/dummy.js:252 | the file name is the title with its white space runs replaced by underscores, followed by "_participants.csv"; it holds no white space |
| DemoDashboard.NewEvent | EOC-frontend/src/components/dummy.js:204-212 | an added event carries all six form fields (title, date, description, venue, category, image), the given stamp as id and an empty roster |
| DemoDashboard.Merge | EOC-frontend/src/components/dummy.js:214-221 | `{ ...event, ...eventForm }`: the six form fields override the event's, while its id and roster are kept |
| DemoDashboard.EditMatching | EOC-frontend/src/components/dummy.js:214-221 | the event with the edited id takes the form's fields; every other event is unchanged |
| DemoDashboard.DeletePending | EOC-frontend/src/components/dummy.js:228-232 | every event with the pending id is removed, every other one keeps its multiplicity and order; with nothing pending the list is unchanged |
| DemoDashboard.Demo.CloseModal | EOC-frontend/src/components/dummy.js:198-202 | the modal is hidden and the selection cleared |
| DemoDashboard.Demo.HandleAddEvent | EOC-frontend/src/components/dummy.js:204-212 | the new event is put first, before the old events in their order; the modal is closed and its type cleared; the form, view, tab, search, confirmation and sidebar are unchanged |
| DemoDashboard.Demo.HandleEditEvent | EOC-frontend/src/components/dummy.js:214-221 | the events with the selected id take the form's fields and the rest are unchanged; the modal is closed and its type cleared; the form, view, tab, search, confirmation and sidebar are unchanged |
| DemoDashboard.Demo.HandleDeleteClick | EOC-frontend/src/components/dummy.js:223-226 | the event is marked pending and the confirmation opened; everything else is unchanged |
| DemoDashboard.Demo.ConfirmDelete | EOC-frontend/src/components/dummy.js:228-232 | the events become `DeletePending` of the old ones and the confirmation closes with nothing pending; everything else is unchanged |
| DemoDashboard.Demo.NavigateTo | EOC-frontend/src/components/dummy.js:285-294 | the chosen view is shown, and the completed view is reached through the events view's tab; the events, form, search, modal and confirmation are unchanged |

## Left out

- Database I/O, Mongoose `populate`, `select`, `lean` and sorting are not modelled. Each collection is a map updated as a whole. Calls the source makes one after the other are not atomic, and concurrent requests are not modelled.
- EventController.GetAllEvents: returns the matching events as a map, so it says nothing about the source's date order.
- Ids are natural numbers rather than ObjectId strings. A malformed id, which the source answers with 500 from a cast error, is not modelled.
- Register and unregister save the event without re-running its schema validation; a save that fails validation is not modelled.
- `Clock.DayOf` truncates in UTC, while the source truncates in the server's or browser's local time zone.
- `Text.Lower` and `Text.UpperChar` map only the ASCII letters. `toLowerCase` maps every cased letter, so non-ASCII names and themes search differently.
- UserSchema.Violations: the email pattern check is left out, so any string passes as an address.
- UserSchema.Create: the unique index on email is not modelled. The only duplicate check is the one in `updateUserProfile`.
- The route table in routes/event.js wires every registration endpoint except `unregisterEvent`. `EventController.UnregisterEvent` models the handler as written, and nothing in the model claims it is reachable over HTTP.
- `getUserProfile`, `getEventById`, `createEvent` and `editEvent` are not modelled, nor are the authentication, admin and email-service modules and the route and middleware wiring.
- The coordinator dashboard's add, edit and delete go through HTTP calls, and its `openModal` fills the form from an event; these are not modelled. Only the local state change of `closeModal` is.
- The browser download in both CSV exports is not modelled: Blob, object URL and anchor click.
- The colour lookups use plain object indexing, so a category such as "toString" would hit `Object.prototype`. The palettes are modelled as maps holding only their own keys.
- String lengths count Unicode scalar values, while JavaScript counts UTF-16 code units. A description with characters outside the Basic Multilingual Plane is cut at a different place.
- The demo dashboard's string comparison of dates equals the day comparison only for four-digit years in "YYYY-MM-DD" form. The model states the string order and does not relate it to days.
- HomeOverview.RegisteredCount: the length of the id list, duplicates included. It carries no contract of its own.
- The Event schema's `details` subdocument (duration, prizes, rules, venue, at Event.js:58-63) and the `createdAt`/`updatedAt` stamps its `timestamps` option adds (Event.js:73) are not fields of `EventSchema.Event`: no modelled endpoint reads, sets or validates them.
- MyEvents.RegisteredEvents: the model gives every event the `_id` it compares. The component's only caller, StudentDashboard.jsx:78-82, passes the mock events, which carry `id` and no `_id`. With a non-empty registration list the source then calls `toString` on `undefined` at MyEvents.jsx:15 and throws when the tab renders. The model does not capture that error.
- UserController.Apply: a JSON `bio: null` passes the `!== undefined` test at user.js:63 and stores null. The body's `bio` is an `Option<string>`, which cannot express a null, so that case is not modelled.
- Rendering, styling, icons, routing between pages and toasts are not modelled.
