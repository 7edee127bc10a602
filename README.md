# Aktifite core in Dafny

Aktifite is a web app for finding sport partners. A signed-in user sees a
roster of activities (sport, title, date, time, place, capacity). They can
ask to join an activity, and an organiser accepts or rejects each request.
Every step puts a notification in a newest-first feed. Each activity has one
chat thread, and the user can post to it. New users sign up through a
three-step registration form: identity, then birth date and city, then
favourite sports.

This project models the two page components that hold that logic:

- `home.dfy` (`module Home`) models the main page. The `SportsApp` class
  holds the page's state: the current user and view, the activity list, the
  notification feed, the chat threads, the selected thread, the message
  box, the create-activity draft and the three filters. Each handler is a
  method whose `ensures` gives the new state as a function of the old one.
  Every handler that changes a list keeps the class invariant `Valid`:
  activity ids are distinct, every roster is consistent, the feed's ids
  are exactly 1..n, and the n-th thread has the key `chat_<n>`, so thread
  keys are distinct. The relative-time label is modelled as `TimeAgo`.
- `activities.dfy` (`module Activities`) holds the pure transitions of one
  activity: join request, accept, reject. Each works on every activity with
  a matching id. The module also has the filter predicate and the profile
  statistics. Its lemmas prove:
  - the capacity bound holds;
  - the participant list and the request list stay disjoint and
    duplicate-free;
  - a second join is a no-op;
  - accept moves exactly one requester into the roster.
- `notifications.dfy` (`module Notifications`): the feed. It covers push to
  the front with id `length + 1`, mark one read, mark all read, and the
  unread count.
- `chats.dfy` (`module Chats`): threads keyed by `chat_<n>`. It covers
  get-or-create of an activity's thread and appending a message to the
  selected thread. Its lemmas prove that distinct numbers give distinct
  keys, that both operations keep the numbering of the keys, and that a
  message therefore changes at most one thread.
- `auth.dfy` (`module Auth`) models the sign-up and sign-in page:
  - the `AuthPage` class (mode, step, form, login form, error record);
  - the e-mail pattern;
  - each field's validation message;
  - both step validations, as a function and as a method with sequential
    checks proved equal to it;
  - moving between steps;
  - the favourite-sport toggle;
  - the final registration guard.
- `text.dfy` (`module Text`) holds the JavaScript string operations the
  pages use: `trim`, ASCII `toLowerCase`, `includes`, and number-to-string.
- `seqs.dfy` (`module Seqs`) holds `Array.prototype.filter` and `find`, plus
  the subsequence and distinctness facts about them.
- `common.dfy` (`module Common`) holds the shared types.

Calls to the database are parameters. The clock is also a parameter: the
current time, as a timestamp string or as an elapsed number of seconds.

Points where the code behaves in a way a reader may not expect:

- The join guard (`src/pages/AppHome.tsx:382-385`) has no test for the
  organiser, so the organiser's own request is recorded;
  `Activities.CreatorMayRequestOwnActivity` states this. The activity card
  hides the join button from the organiser (lines 582-584), so that request
  can only come from a caller other than the card.
- Each activity keeps the participant count and the participant list as
  separate fields. Activities loaded from the store start with a count of 1
  and an empty list. The lemmas state the relations between the two that
  the transitions keep: `count - |list|` is unchanged, and the list is never
  longer than the count. They do not state that the two are equal.
- The notification feed is newest-first. A new notification's id is the
  feed length plus one, and the chat key is also `length + 1`.
- When the entered birth date cannot be parsed, its year is `None`. The age
  checks then pass: the code compares `NaN`, and every such comparison is
  false.

## Model

| member | source | states |
|---|---|---|
| Seqs.Filter | src/pages/AppHome.tsx:238 | the result holds exactly the elements that satisfy the predicate and is never longer than the input |
| Seqs.FilterMultiplicity | src/pages/AppHome.tsx:238 | every matching element is kept as many times as it occurs in the input, and every other element is dropped |
| Seqs.Find | src/pages/AppHome.tsx:378 | `None` exactly when no element matches; a found element is in the list and matches |
| Seqs.FindIsFirst | src/pages/AppHome.tsx:252-255 | when some element matches, `find` returns a match at or before it, and every element before that one fails the predicate |
| Seqs.FilterIsSubsequence | src/pages/AppHome.tsx:486-493 | filtering keeps the order of the kept elements (an order-preserving subsequence) |
| Seqs.FilterDistinctBy | src/pages/AuthPage.tsx:117-119 | filtering a list whose keys are distinct keeps them distinct |
| Text.TrimStart | src/pages/AuthPage.tsx:130 | the result is a suffix of the input, and everything dropped is whitespace |
| Text.TrimEnd | src/pages/AuthPage.tsx:130 | the result is a prefix of the input, and everything dropped is whitespace |
| Text.Trim | src/pages/AppHome.tsx:282 | the result is the slice of the input between a run of leading and a run of trailing whitespace, neither starts nor ends with whitespace, and is empty exactly when the input is all whitespace |
| Text.ToLower | src/pages/AppHome.tsx:489-491 | lower-casing keeps the length, so the search compares texts position by position |
| Text.IsSpace | src/pages/AuthPage.tsx:91 | the white space of JavaScript's `\s` class and of `trim`: the ECMAScript WhiteSpace and LineTerminator code points |
| Text.Includes | src/pages/AppHome.tsx:489-491 | `String.prototype.includes`: the term occurs as a contiguous slice; `Text.IncludesEmpty` states the empty-term case |
| Text.IncludesEmpty | src/pages/AppHome.tsx:489-491 | an empty search term is included in every string, so an empty search hides nothing |
| Text.NatToString | src/pages/AppHome.tsx:263 | the numeral is non-empty, made only of decimal digits, denotes the number, and has no leading zero |
| Activities.LoadedActivity | src/pages/AppHome.tsx:201-214 | a stored row becomes an activity with the same id and organiser, count 1, no participants and no requests |
| Activities.CreatedActivity | src/pages/AppHome.tsx:335-349 | a new activity has the inserted row's id, the creator as organiser and sole participant, count 1, and no requests |
| Activities.RequestOf | src/pages/AppHome.tsx:409 | a request by the user is found exactly when one exists, and the found request is theirs |
| Activities.WithoutRequestsOf | src/pages/AppHome.tsx:429 | removes exactly the user's requests, keeps the others in order, keeps requester ids distinct |
| Activities.CanJoin | src/pages/AppHome.tsx:382-385 | the join guard: not a participant, no request yet, and a free seat; its effect is stated by `Activities.JoinGuardFails` and `Activities.JoinTwiceOnePending` |
| Activities.Join | src/pages/AppHome.tsx:380-401 | only the request list can change, and it changes exactly when the join guard holds |
| Activities.Accept | src/pages/AppHome.tsx:411-435 | only the participants, the requests and the count can change, and they change exactly when the user has a request and a seat is free |
| Activities.Reject | src/pages/AppHome.tsx:442-461 | the user has no request afterwards, the other requests are kept in order, and nothing else changes |
| Activities.JoinAll | src/pages/AppHome.tsx:377-405 | each activity with the identifier becomes its join request and every other activity is unchanged; identifiers, participant lists and counts are all kept |
| Activities.AcceptAll | src/pages/AppHome.tsx:407-436 | each activity with the identifier becomes its accept and every other activity is unchanged; identifiers are kept, and on a matching activity with a free seat the user no longer has a request |
| Activities.RejectAll | src/pages/AppHome.tsx:438-462 | each activity with the identifier becomes its reject and every other activity is unchanged; identifiers are kept, and on a matching activity the user no longer has a request |
| Activities.MatchesFilters | src/pages/AppHome.tsx:487-492 | the three filter conditions of one activity; `Activities.FilteredIsMatchingSubsequence` and `Activities.NoFilterShowsAll` state what filtering with it gives |
| Activities.FilteredActivities | src/pages/AppHome.tsx:486-493 | the activities that match, in order; stated by `Activities.FilteredIsMatchingSubsequence` |
| Activities.CreatedCount | src/pages/AppHome.tsx:1117 | at most the number of activities, and zero exactly when the user organises none |
| Activities.JoinedCount | src/pages/AppHome.tsx:1123 | at most the number of activities, and zero exactly when the user takes part in none |
| Activities.NewActivitiesConsistent | src/pages/AppHome.tsx:201-214 | a loaded activity and a newly created one both start with a consistent roster |
| Activities.JoinIdempotent | src/pages/AppHome.tsx:377-405 | asking to join twice equals asking once |
| Activities.JoinTwiceOnePending | src/pages/AppHome.tsx:382-400 | when the join guard passes, two clicks append exactly one pending request for the user and leave the participants and count alone |
| Activities.JoinGuardFails | src/pages/AppHome.tsx:382-385 | a participant, an existing requester or a full activity makes join a no-op |
| Activities.CreatorMayRequestOwnActivity | src/pages/AppHome.tsx:382-385 | the guard does not exclude the organiser: they can file a request to their own activity |
| Activities.JoinPreservesRoster | src/pages/AppHome.tsx:377-405 | join keeps the capacity bound and the roster's consistency (distinct participants, distinct requesters, nobody in both lists, list no longer than the count) |
| Activities.AcceptEffect | src/pages/AppHome.tsx:407-436 | accepting a pending requester of a non-full activity adds one to the count, appends that request's user record to the participants, removes their request, keeps the other requests in order and changes nothing else |
| Activities.AcceptNoop | src/pages/AppHome.tsx:413-414 | accept changes nothing on a full activity or for a user without a request |
| Activities.AcceptPreservesRoster | src/pages/AppHome.tsx:407-436 | accept keeps the capacity bound and the roster's consistency |
| Activities.RejectEffect | src/pages/AppHome.tsx:438-462 | reject removes the user's request, keeps the other requests in order and changes nothing else |
| Activities.RejectPreservesRoster | src/pages/AppHome.tsx:438-462 | reject keeps the capacity bound and the roster's consistency |
| Activities.UpdateWhere | src/pages/AppHome.tsx:380 | keeps the list's length; each activity with the identifier is replaced by the update of it and every other activity is unchanged |
| Activities.FindActivity | src/pages/AppHome.tsx:378 | an activity with the id is found exactly when one exists, and the found one has that id |
| Activities.FindUnique | src/pages/AppHome.tsx:378 | with distinct ids, looking up an activity's id finds that very activity |
| Activities.UpdateKeepsIds | src/pages/AppHome.tsx:380-404 | an id-preserving update keeps every position's id and keeps ids distinct |
| Activities.AppendFreshKeepsIds | src/pages/AppHome.tsx:351 | appending an activity with a fresh id keeps ids distinct |
| Activities.JoinAllNoop | src/pages/AppHome.tsx:378-385 | when the activity is missing or the guard fails, the whole list is unchanged |
| Activities.SecondJoinIsNoop | src/pages/AppHome.tsx:377-405 | after one join request on the list, a second one by the same user changes nothing |
| Activities.TransitionsPreserveRosters | src/pages/AppHome.tsx:377-462 | join, accept and reject over the whole list keep every activity within capacity and consistent |
| Activities.TransitionsKeepInvariant | src/pages/AppHome.tsx:377-462 | join, accept and reject over the whole list keep the ids distinct and every roster consistent |
| Activities.FilteredIsMatchingSubsequence | src/pages/AppHome.tsx:486-493 | the filtered list is an order-preserving subsequence holding exactly the matching activities |
| Activities.NoFilterShowsAll | src/pages/AppHome.tsx:486-493 | with both selectors on 'all' and an empty search, every activity is shown in order |
| Activities.StatsAfterCreate | src/pages/AppHome.tsx:1117-1123 | creating an activity adds one to the creator's 'created' and 'joined' counts |
| Activities.TwoSeatScenario | src/pages/AppHome.tsx:335-436 | for a two-seat activity: create, one request, accept gives roster [creator, requester], empty requests, full, and a third user's join is ignored |
| Notifications.Push | src/pages/AppHome.tsx:353-362 | puts a new unread notification with id `length + 1` at the front; stated by `Notifications.PushEffect` |
| Notifications.MarkRead | src/pages/AppHome.tsx:464-468 | sets the read flag of entries with the id; stated by `Notifications.MarkReadEffect` |
| Notifications.MarkAllRead | src/pages/AppHome.tsx:470-472 | sets every read flag and keeps everything else; stated by `Notifications.MarkAllClearsUnread` |
| Notifications.UnreadCount | src/pages/AppHome.tsx:238 | the number of unread notifications; stated by `Notifications.PushEffect` and `Notifications.MarkReadNeverAddsUnread` |
| Notifications.PushEffect | src/pages/AppHome.tsx:386-395 | a pushed notification goes first, unread, with a fresh id; the feed keeps ids 1..n and the unread count rises by one |
| Notifications.MarkReadEffect | src/pages/AppHome.tsx:464-468 | only the read flag changes; an entry becomes read exactly when it was read or has the id; at most one entry changes |
| Notifications.MarkReadIdempotent | src/pages/AppHome.tsx:464-472 | marking one or all read twice equals doing it once |
| Notifications.MarkAllClearsUnread | src/pages/AppHome.tsx:470-472 | after mark-all-read the unread badge count is zero; the feed keeps its length and order, and every entry changes only in its read flag (so ids stay 1..n) |
| Notifications.MarkReadNeverAddsUnread | src/pages/AppHome.tsx:464-468 | marking one read never raises the unread count |
| Notifications.MarkOneThenAll | src/pages/AppHome.tsx:464-472 | mark-one then mark-all leaves no unread notification |
| Chats.NewThread | src/pages/AppHome.tsx:261-274 | the empty thread `chat_<n+1>` between the user and the organiser; stated by `Chats.GetOrCreateEffect` |
| Chats.GetOrCreate | src/pages/AppHome.tsx:251-279 | selects the activity's thread or appends a new one; stated by `Chats.GetOrCreateEffect` and `Chats.GetOrCreateTwice` |
| Chats.WithMessage | src/pages/AppHome.tsx:285-297 | one thread with the message appended, shown as last message and read; stated by `Chats.AppendMessageEffect` |
| Chats.AppendMessage | src/pages/AppHome.tsx:284-300 | the message added to every thread with the key; stated by `Chats.AppendMessageEffect` |
| Chats.ExistingThread | src/pages/AppHome.tsx:252-255 | a thread of the activity is found exactly when one exists |
| Chats.ChatKeyInjective | src/pages/AppHome.tsx:263 | two thread numbers give the same key `chat_<n>` only when they are equal |
| Chats.KeysOk | src/pages/AppHome.tsx:117-135 | the n-th thread has the key `chat_<n>`, as in the seeded threads and in every thread the page creates |
| Chats.KeysDistinct | src/pages/AppHome.tsx:263 | under that numbering no two threads share a key |
| Chats.GetOrCreateEffect | src/pages/AppHome.tsx:251-279 | selects an existing thread and leaves the list alone, or appends one empty thread `chat_<n+1>` between user and organiser and selects it; keeps the key numbering |
| Chats.GetOrCreateTwice | src/pages/AppHome.tsx:251-279 | opening an activity's chat a second time selects the same thread and adds nothing |
| Chats.FindChat | src/pages/AppHome.tsx:303 | a thread with the key is found exactly when one exists |
| Chats.AppendMessageEffect | src/pages/AppHome.tsx:284-301 | each thread with the selected key gains the message at the end, shows it as last message and is marked read; other threads and fields are unchanged; under the key numbering the numbering is kept and at most one thread changes |
| Chats.SelectedAfterSend | src/pages/AppHome.tsx:302-304 | the re-selected thread is the previously found thread with the new message appended |
| Home.DraftComplete | src/pages/AppHome.tsx:309 | title, date, time and location are all non-empty; `Home.SportsApp.HandleCreateActivity` refuses the draft exactly when this fails |
| Home.ElapsedSeconds | src/pages/AppHome.tsx:475-477 | the floor of the millisecond difference in whole seconds |
| Home.TimeAgo | src/pages/AppHome.tsx:474-484 | picks 'just now', minutes, hours, days or a calendar date by the 60/3600/86400/604800-second bounds; each count is the floor and lies in its range |
| Home.GetTimeAgo | src/pages/AppHome.tsx:474-484 | the bucket follows the elapsed milliseconds (under 60 000 'just now', then minutes, hours, days, from 604 800 000 a date) and each count is the whole number of units elapsed |
| Home.AgeText | src/pages/AppHome.tsx:479-482 | the Turkish label of a bucket; stated by `Home.AgeTextShape` |
| Home.AgeTextShape | src/pages/AppHome.tsx:479-483 | only the calendar date renders as the empty string (it is left to the locale); the minutes, hours and days labels begin with the numeral of their count |
| Home.TimeAgoMonotone | src/pages/AppHome.tsx:474-484 | an older timestamp never gets a smaller age label |
| Home.SportsApp.constructor | src/pages/AppHome.tsx:223-236 | from a feed numbered 1..n and threads keyed `chat_1`..`chat_n`, the page starts valid, on home, with no activities, filters on 'all' and '', the initial draft, no selected thread and an empty message box |
| Home.SportsApp.Visible | src/pages/AppHome.tsx:486-493 | the visible activities are an order-preserving subsequence holding exactly those matching the three filters |
| Home.SportsApp.EditFilters | src/pages/AppHome.tsx:740-757 | sets the filters; with all filters off every activity is visible |
| Home.SportsApp.LoadActivities | src/pages/AppHome.tsx:188-220 | the list becomes the loaded rows, in order, with distinct ids |
| Home.SportsApp.HandleJoinRequest | src/pages/AppHome.tsx:377-405 | the list gets the user's join request; a 'request sent' notification is pushed exactly when the activity exists and the guard passes |
| Home.SportsApp.HandleAcceptRequest | src/pages/AppHome.tsx:407-436 | the list gets the accept; an 'accepted' notification is pushed exactly when the user had a request and a seat was free |
| Home.SportsApp.HandleRejectRequest | src/pages/AppHome.tsx:438-462 | the request is removed and a 'rejected' notification is always pushed |
| Home.SportsApp.MarkNotificationAsRead | src/pages/AppHome.tsx:464-468 | the feed is the old feed with that id marked read |
| Home.SportsApp.MarkAllNotificationsAsRead | src/pages/AppHome.tsx:470-472 | every notification is read and the unread count is zero |
| Home.SportsApp.HandleSendMessage | src/pages/AppHome.tsx:251-279 | threads and selection follow get-or-create, the view switches to the chat, and the invariant (thread keys included) is kept |
| Home.SportsApp.EditMessage | src/pages/AppHome.tsx:874 | the message box holds the typed text |
| Home.SportsApp.SendMessage | src/pages/AppHome.tsx:281-306 | a blank message or no selected thread changes nothing; otherwise the message is appended to the selected thread, which is re-selected, and the box is cleared; the invariant (thread keys included) is kept |
| Home.SportsApp.EditDraft | src/pages/AppHome.tsx:971-1062 | the draft holds the form's values |
| Home.SportsApp.HandleCreateActivity | src/pages/AppHome.tsx:308-375 | an incomplete draft or a failed insert changes nothing; otherwise the new activity is appended, an 'activity created' notification is pushed, the draft is reset and the view returns home |
| Auth.WithField | src/pages/AuthPage.tsx:106-108 | only the edited field takes the new value |
| Auth.ClearError | src/pages/AuthPage.tsx:109-110 | only the edited field's error is cleared |
| Auth.ValidateEmail | src/pages/AuthPage.tsx:90-93 | the e-mail pattern; its shape is stated by `Auth.ValidateEmailShape` |
| Auth.NameError | src/pages/AuthPage.tsx:130-136 | the name's message; stated by `Auth.NameMessages` |
| Auth.EmailError | src/pages/AuthPage.tsx:138-144 | the e-mail's message; stated by `Auth.EmailMessages` |
| Auth.PasswordError | src/pages/AuthPage.tsx:146-152 | the password's message; stated by `Auth.PasswordMessages` |
| Auth.ConfirmError | src/pages/AuthPage.tsx:154-160 | the confirmation's message; stated by `Auth.PasswordMessages` |
| Auth.Step1Errors | src/pages/AuthPage.tsx:126-164 | the step-1 error record; built by `Auth.CheckStep1` and stated by `Auth.Step1Valid` |
| Auth.Step1Ok | src/pages/AuthPage.tsx:126-164 | every step-1 field passes; `Auth.Step1Valid` proves it equals an empty error record |
| Auth.BirthDateError | src/pages/AuthPage.tsx:170-185 | the birth date's message; stated by `Auth.Step2Messages` |
| Auth.CityError | src/pages/AuthPage.tsx:187-190 | the city's message; stated by `Auth.Step2Messages` |
| Auth.Step2Errors | src/pages/AuthPage.tsx:166-194 | the step-2 error record; built by `Auth.CheckStep2` and stated by `Auth.Step2Messages` |
| Auth.Step2Ok | src/pages/AuthPage.tsx:166-194 | both step-2 fields pass; `Auth.Step2Valid` proves it equals an empty error record |
| Auth.Toggle | src/pages/AuthPage.tsx:113-120 | adds an unchosen sport at the end or filters a chosen one out; stated by `Auth.ToggleFlips`, `Auth.ToggleTwice`, `Auth.ToggleRoundTrip` and `Auth.ToggleKeepsDistinct` |
| Auth.ValidateEmailShape | src/pages/AuthPage.tsx:90-93 | the pattern holds exactly for whitespace-free text with a single '@' that is not first, whose domain has a '.' neither first nor last |
| Auth.ValidEmailNotBlank | src/pages/AuthPage.tsx:137-142 | a valid e-mail is never blank, so 'required' and 'invalid' never clash |
| Auth.MessageTextEmpty | src/pages/AuthPage.tsx:77-85 | a message renders as the empty string exactly when there is no error |
| Auth.NameMessages | src/pages/AuthPage.tsx:130-136 | the name is 'required' iff blank after trim, 'too short' iff 1-2 characters after trim, fine iff at least 3 |
| Auth.EmailMessages | src/pages/AuthPage.tsx:138-144 | the e-mail is 'required' iff blank, 'invalid' iff non-blank and failing the pattern, fine iff it matches |
| Auth.PasswordMessages | src/pages/AuthPage.tsx:146-160 | the password and its confirmation get each message under exactly the stated condition |
| Auth.Step1Valid | src/pages/AuthPage.tsx:126-164 | step 1 has no errors exactly when every step-1 field is fine |
| Auth.Step2Messages | src/pages/AuthPage.tsx:166-194 | birth date 'required' iff empty; for a parsed year, 'too young' iff the age is under 13 and 'invalid' iff over 100; an unparseable year passes; city 'required' iff empty; every other error is clear |
| Auth.Step2Valid | src/pages/AuthPage.tsx:166-194 | step 2 has no errors exactly when both fields are fine |
| Auth.CheckStep1 | src/pages/AuthPage.tsx:126-164 | the sequential checks build exactly the step-1 error record, and report valid iff it is empty |
| Auth.CheckStep2 | src/pages/AuthPage.tsx:166-194 | the sequential checks build exactly the step-2 error record, and report valid iff it is empty |
| Auth.ToggleFlips | src/pages/AuthPage.tsx:113-124 | toggling flips the sport's membership and no other sport's |
| Auth.ToggleTwice | src/pages/AuthPage.tsx:113-124 | toggling twice restores the set of chosen sports |
| Auth.ToggleRoundTrip | src/pages/AuthPage.tsx:113-124 | adding an unchosen sport and removing it gives back the exact list |
| Auth.ToggleKeepsDistinct | src/pages/AuthPage.tsx:113-124 | toggling never lists a sport twice |
| Auth.AuthPage.constructor | src/pages/AuthPage.tsx:98-104 | register mode, step 1, empty forms, no errors |
| Auth.AuthPage.HandleInputChange | src/pages/AuthPage.tsx:106-111 | the field takes the value and its error is cleared |
| Auth.AuthPage.HandleSportToggle | src/pages/AuthPage.tsx:113-124 | the sports list is toggled and the sports error is cleared |
| Auth.AuthPage.ValidateStep1 | src/pages/AuthPage.tsx:126-164 | stores the step-1 errors; reports valid iff every step-1 field is fine |
| Auth.AuthPage.ValidateStep2 | src/pages/AuthPage.tsx:166-194 | stores the step-2 errors; reports valid iff both step-2 fields are fine |
| Auth.AuthPage.HandleNextStep | src/pages/AuthPage.tsx:196-202 | advances at most one step: 1 to 2 iff step 1 is valid, 2 to 3 iff step 2 is valid, step 3 stays |
| Auth.AuthPage.PreviousStep | src/pages/AuthPage.tsx:477 | goes back exactly one step |
| Auth.AuthPage.HandleRegister | src/pages/AuthPage.tsx:204-214 | registration goes ahead iff a sport is chosen; otherwise only the sports error is set |
| Auth.AuthPage.EditLogin | src/pages/AuthPage.tsx:270 | the login form holds the typed values |
| Auth.AuthPage.HandleLogin | src/pages/AuthPage.tsx:216-224 | sign-in goes ahead iff both e-mail and password are filled |
| Auth.AuthPage.ShowRegister | src/pages/AuthPage.tsx:237-240 | register mode, step 1, errors cleared |
| Auth.AuthPage.ShowLogin | src/pages/AuthPage.tsx:249-251 | login mode, errors cleared |
| Auth.AuthPage.SwitchMode | src/pages/AuthPage.tsx:588-591 | flips the mode, back to step 1, errors cleared |

## Left out

- Session and profile loading, sign-out and the auth-state listener are left out. They are calls into the hosted backend; `currentUser` is a constructor parameter.
- The store's list query and insert are parameters. `LoadActivities` takes the returned rows, and `HandleCreateActivity` takes the inserted row or `None` for a failed insert.
- The alerts, console logging, navigation and the local-storage flag are left out. They are I/O with no effect on the modelled state.
- Profile-image upload (FileReader) is left out. It is browser I/O.
- The clock is a parameter (`now`, or elapsed seconds for `TimeAgo`). Rendering a calendar date in the Turkish locale is left out: `TimeAgo` returns `CalendarDate` for a week or more.
- Notification records: the `sportEmoji` field of a new notification and the `userId` of the demo entries are not modelled; no modelled operation reads them.
- The JSX rendering, the sport emoji tables, the city list, the password-visibility toggle and the view tabs are left out. They only render.
- The demo notification feed and chat threads are left out. The constructor takes them as parameters. The fixed unread-message badge is also left out; the code never updates it.
- Home.SportsApp.EditDraft: the draft stores the capacity as an integer. The `parseInt` of the form's text field is not modelled.
- Home.SportsApp.HandleCreateActivity: the update after the awaited insert is modelled as one atomic step. A join, accept or reject that lands while the insert is pending is overwritten in the code; the model does not capture that lost update.
- Home.SportsApp.HandleCreateActivity: requires that the inserted row's id is fresh. The store generates ids, which are not modelled.
- Home.SportsApp.HandleAcceptRequest: requires that the activity exists. The code reads its fields without a check and would throw.
- Home.SportsApp.HandleRejectRequest: requires that the activity exists and that the user has a request. The code reads the request's name without a check and would throw.
- Home.SportsApp.LoadActivities: requires distinct row ids, which the store's primary key guarantees.
- Filter: the function's own contract states membership and the length bound; the multiplicity of each element is stated by `Seqs.FilterMultiplicity`, because stating it on the recursive function itself makes the proofs that unfold it too costly.
- Person records: requests, participants, organisers and chat participants keep only the user's id, name and avatar. The code spreads the whole current-user record there; the other fields are never read by the modelled operations.
- Text.ToLower: folds ASCII letters only. Full Unicode case mapping (Turkish 'İ', for example) is not modelled.
- Auth.NameMessages: counts characters. JavaScript's `length` counts UTF-16 code units, so the two differ for characters outside the Basic Multilingual Plane. The same holds for `Auth.PasswordMessages`.
- Auth.Step2Messages: the birth year is an `Option<int>` supplied by the caller. Parsing the date string is not modelled; `None` stands for a date the browser cannot parse.
