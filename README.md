# landLorkLinkAI screen logic in Dafny

This project models the decision logic of the landLorkLinkAI tenant app, a React
Native client for a rental building. It covers the maintenance-ticket chat, the
community events calendar, the sign-up and log-in forms, the role hierarchy
used for permissions, and the repair-request and announcement handlers on the
home and announcements screens. It also covers the ordering of repair requests,
the document viewer toggle, the occupancy dashboard, and two display rules of
the cards.

Each source file is one module:

- `TextUtil` (text.dfy) holds the JavaScript string operations the screens rely on:
  - `trim` and the regular-expression class `\s`, using the ECMAScript white-space set;
  - ASCII `toLowerCase` and `includes`;
  - `String(n)` for natural numbers;
  - the UTF-16 encoding of a string, whose code units are what `length` and `slice` count;
  - code-point order on strings.
- `Seqs` (seqs.dfy) holds `Array.prototype.filter` and `map`, and the stable `Array.prototype.sort`:
  - a sort function `Sort`;
  - an in-place array method `SortInPlace`, proved to produce `Sort` of the old contents.
- Screens whose handlers update several pieces of React state are classes. Their fields are the state variables, and their methods are the handlers:
  - `Chat.ChatScreen`
  - `Events.EventsScreen`
  - `Announcements.AnnouncementsScreen`
  - `Home.HomeScreen`
- The computations themselves are functions with the properties proved as lemmas. This includes the validators, which return the validity flag and the error code they leave in `viewError`.
- Database and authentication calls are not modelled. What they return is an input to the handler instead: whether a write succeeded, an error code, the list a re-fetch returned, or the profile document read. Clock readings are also parameters (`now`).

## Model

| member | source | states |
|---|---|---|
| TextUtil.Trim | screens/chat.js:33 | the result is the infix of the input between a blank prefix and a blank suffix; it is empty exactly when every character is ECMAScript white space, and otherwise it starts and ends with a non-space |
| TextUtil.Lower | screens/Events.js:79-80 | lower-casing keeps the length and maps each character on its own |
| TextUtil.Contains | screens/Events.js:79-80 | `s.includes(sub)`: `sub` occurs at some offset, so a string can only include one no longer than itself; ContainsEmpty and ContainsChar give its two special cases |
| TextUtil.ContainsChar | screens/Login.js:108 | `includes` of a one-character string is membership of that character |
| TextUtil.Utf16 | components/AnnouncementCard.js:24 | a text's JavaScript string is its UTF-16 encoding, with as many code units as `Utf16Length` counts |
| TextUtil.Utf16Length | screens/Login.js:113 | JavaScript `length` counts one unit per character and two for a character beyond U+FFFF, so it lies between the number of characters and twice that |
| TextUtil.Utf16LengthOfBmp | screens/Login.js:113 | for text within the Basic Multilingual Plane, `length` is the number of characters |
| TextUtil.Utf16LengthOfAstral | screens/Login.js:113 | for text made only of characters beyond U+FFFF, `length` is twice the number of characters |
| TextUtil.ContainsEmpty | screens/Events.js:79-80 | every string includes the empty string |
| TextUtil.NatToString | screens/Events.js:96 | `String(n)` is a non-empty string of decimal digits that starts with '0' only for 0 |
| TextUtil.DigitsRoundTrip | screens/Events.js:96 | reading back the digits of `String(n)` gives `n` |
| TextUtil.NatToStringInjective | screens/Events.js:96 | different numbers give different id strings |
| TextUtil.LexLess | screens/Events.js:82-87 | the code-point order standing in for date order and `localeCompare`: a string never precedes itself; LexLessTotal and NotLexLessTransitive make it a strict weak order |
| TextUtil.LexLessTotal | screens/Events.js:82-87 | two different strings are ordered one way or the other |
| TextUtil.NotLexLessTransitive | screens/Events.js:82-87 | "not before" is transitive, as a stable sort's comparison needs |
| Seqs.Filter | screens/Events.js:78-81 | the kept elements are elements of the input that pass the test, and every passing element is kept |
| Seqs.FilterConcat | screens/Events.js:118 | filtering keeps the original order: it distributes over concatenation |
| Seqs.FilterKeepsAll | screens/Events.js:78-81 | when every element passes, the list is unchanged |
| Seqs.FilterSplit | screens/Dashboard.js:27-29 | the elements kept by a test and by its negation add up to the whole list |
| Seqs.Sort | screens/Events.js:82-87 | the stable `Array.prototype.sort` (also Announcements.js:31, Home.js:75, Maintenances.js:23): the result has the input's length; SortPermutation, SortSorted and SortOfSorted give the rest |
| Seqs.SortPermutation | screens/Events.js:82-87 | sorting neither loses nor duplicates an element (same multiset and length) |
| Seqs.SortSorted | screens/Events.js:82-87 | for a strict weak order, no element of the result must come before an earlier one |
| Seqs.SortOfSorted | screens/Announcements.js:31 | a list already in order, ties included, comes back unchanged |
| Seqs.SortMap | screens/Maintenances.js:23 | a change to the elements that the comparator cannot see commutes with the sort |
| Seqs.SortInPlace | screens/Announcements.js:31 | sorting the array in place leaves `Sort` of its old contents |
| Seqs.InsertAt | screens/Announcements.js:31 | one insertion step places the element into the ordered prefix and leaves the rest of the array alone |
| Seqs.Map | screens/Dashboard.js:50-53 | same length, and each entry is the image of the entry at the same index |
| Chat.ChatScreen.constructor | screens/chat.js:15-18 | the screen starts with no messages and an empty draft |
| Chat.ChatScreen.LoadMessages | screens/chat.js:21-30 | loading a ticket replaces the messages with the three dummy ones |
| Chat.ChatScreen.SetNewMessage | screens/chat.js:79 | typing replaces the draft |
| Chat.ChatScreen.HandleSend | screens/chat.js:32-43 | a blank draft changes nothing; otherwise exactly one message is appended with id count+1, sender "user" and the untrimmed draft, earlier messages are kept in order, and the draft is cleared |
| Chat.DummyIdsSequential | screens/chat.js:24-28 | the dummy messages are numbered 1, 2, 3 |
| Chat.SequentialIdsDistinct | screens/chat.js:36 | ids numbered 1..n are pairwise distinct |
| Chat.OutgoingMessage | screens/chat.js:35-39 | the sent message is numbered `messages.length + 1`, above every id of a list numbered 1..n; SendKeepsIdsSequential extends the numbering |
| Chat.SendKeepsIdsSequential | screens/chat.js:35-40 | if the ids are 1..n, after a send they are 1..n+1 and pairwise distinct |
| Chat.SendsKeepIdsSequential | screens/chat.js:32-43 | any number of accepted sends keeps the numbering 1..n |
| Events.BuildMarkedDates | screens/Events.js:65-75 | the map has one key per distinct event date, and each entry is marked, selected, and coloured by the last event of that day |
| Events.MarksCoverEveryEvent | screens/Events.js:67-72 | every event's day is marked and selected |
| Events.MarkFor | screens/Events.js:67-72 | an event's day is marked and selected in a non-empty colour; LastEventOfDayWins says which event's colour wins |
| Events.LastEventOfDayWins | screens/Events.js:67-72 | the colour of a day is the category colour of its last event |
| Events.Search | screens/Events.js:77-81 | the filter keeps only listed events whose lower-cased title or details include the lower-cased query; SearchMembership gives the converse |
| Events.Before | screens/Events.js:82-87 | the comparator (date order or category-key order) never puts an event before itself; BeforeIsStrictWeakOrder shows it is a strict weak order |
| Events.Filtered | screens/Events.js:77-87 | `filteredEvents` has as many entries as the search keeps, no more than the list; FilteredIsSortedPermutation says they are the matches in order |
| Events.EventsScreen.FilteredEvents | screens/Events.js:77-87 | the list shown under the calendar is never longer than the stored events |
| Events.SearchMembership | screens/Events.js:77-81 | an event is listed iff it is in the list and the lower-cased query occurs in its lower-cased title or details |
| Events.SearchKeepsOrder | screens/Events.js:77-81 | the search keeps the events in their original order |
| Events.EmptyQueryKeepsAll | screens/Events.js:77-81 | an empty query keeps every event |
| Events.BeforeIsStrictWeakOrder | screens/Events.js:82-87 | the date and category comparators are strict weak orders |
| Events.FilteredIsSortedPermutation | screens/Events.js:77-87 | the listed events are a permutation of the matching ones, ascending by date or by category key |
| Events.NextSortMode | screens/Events.js:237 | the sort button always switches to the other mode |
| Events.AddedAsWritten | screens/Events.js:89-101 | an incomplete form is rejected; otherwise one event is appended with id `String(length + 1)` |
| Events.MaxNumericId | screens/Events.js:96 | bounds every numeric id in the list |
| Events.NextEventId | screens/Events.js:96 | the new id differs from every id in the list |
| Events.DraftComplete | screens/Events.js:90 | the add form needs a title, a date and details, so the reset draft is never accepted |
| Events.Added | screens/Events.js:89-101 | an incomplete form is rejected; otherwise one event with the form's fields and reminder off is appended after the unchanged list |
| Events.AddedKeepsIdsUnique | screens/Events.js:95-101 | adding keeps the ids pairwise distinct |
| Events.MaxNumericIdOfSequential | screens/Events.js:96 | when the ids are "1".."n", the largest numeric id is n |
| Events.NextIdAgreesWhileSequential | screens/Events.js:96 | while the ids are "1".."n", the new id is `String(length + 1)`, as the screen computes it |
| Events.FetchedIdsSequential | screens/Events.js:34-59 | the loaded events are numbered "1", "2", "3" |
| Events.AsWrittenIdCollides | screens/Events.js:96 | with the length-based id, deleting "1" and adding gives two events with id "3" |
| Events.ToggledReminder | screens/Events.js:108-115 | same length and order; only the reminder flips, and only on events with the id |
| Events.ToggleTwiceRestores | screens/Events.js:108-115 | toggling the same id twice restores the list |
| Events.Deleted | screens/Events.js:118 | the delete filter keeps no event with the id and never lengthens the list; DeletedRemovesExactly gives the converse |
| Events.DeletedRemovesExactly | screens/Events.js:117-121 | after a delete no event has the id, and every event with another id remains |
| Events.DeletedKeepsOrder | screens/Events.js:118 | the remaining events keep their order |
| Events.EventsScreen.constructor | screens/Events.js:16-28 | empty list and calendar, empty query, date mode, modal closed, empty draft with category COMMUNITY |
| Events.EventsScreen.Load | screens/Events.js:33-63 | the three events are loaded and their days marked |
| Events.EventsScreen.UpdateMarkedDates | screens/Events.js:65-75 | the calendar becomes the marking of the given events |
| Events.EventsScreen.HandleAddEvent | screens/Events.js:89-106 | an incomplete draft changes nothing; otherwise the event is added with the corrected id (one more than the largest numeric id, see Findings), the calendar follows, the modal closes and the draft resets |
| Events.EventsScreen.ToggleReminder | screens/Events.js:108-115 | the list becomes the toggled list |
| Events.EventsScreen.DeleteEvent | screens/Events.js:117-121 | the list loses the events with the id and the calendar follows |
| Events.EventsScreen.ToggleSort | screens/Events.js:237 | the mode switches |
| Events.EventsScreen.SetSearchQuery | screens/Events.js:231 | typing replaces the query |
| Signup.EmailPattern | screens/Signup.js:208-209 | `/^[^\s@]+@[^\s@]+\.[^\s@]+$/` accepts only strings of at least five characters; EmailPatternShape characterises it exactly |
| Signup.EmailPatternShape | screens/Signup.js:208-209 | the e-mail pattern accepts a string iff it has no white space, exactly one '@' (not first), and a '.' after it with a character on each side |
| Signup.PatternHasShape | screens/Signup.js:208 | a string the pattern accepts has that shape |
| Signup.ShapeMatchesPattern | screens/Signup.js:208 | a string of that shape is accepted by the pattern |
| Signup.IsFormValid | screens/Signup.js:201-226 | blank names or e-mail, a non-matching e-mail or a password under 8 UTF-16 code units give -1; a differing confirmation gives -2 only once those pass; the form is valid iff all pass, and then the code is 0 |
| Signup.ErrorCodeFor | screens/Signup.js:76-82 | e-mail in use gives -3, a network failure -4, anything else -1 |
| Signup.ErrorCodesDistinct | screens/Signup.js:24-27 | the four error codes and 0 are distinct |
| Signup.HandleSignUp | screens/Signup.js:40-86 | an invalid form makes no call; it navigates iff the form is valid and both calls succeed, storing a tenant profile; the first failure's code is shown |
| Login.IsFormValid | screens/Login.js:106-120 | no '@' gives -2 first; then a password under 8 UTF-16 code units gives -1; the form is valid iff both pass, and then the code is 1 (loading) |
| Login.EmptyEmailShadowed | screens/Login.js:108-113 | an empty e-mail always gives -2 |
| Login.InvalidInformationMeansShortPassword | screens/Login.js:108-117 | -1 is shown exactly for an e-mail with '@' and a password under 8 code units, and -2 exactly for one without '@' |
| Login.FourEmojiPasswordAccepted | screens/Login.js:113 | a password of four emoji is 8 code units long and passes the length check |
| Login.Press | screens/Login.js:35-50 | sign-in runs only on a valid form; any failure shows -1; success navigates and resets the code to 0 |
| Login.NavigationNeedsWellFormedInput | screens/Login.js:88 | the screen never navigates on without '@' and a password of at least 8 code units |
| Auth.GetUserRole | Auth.js:5-16 | a read error is passed on; a missing document or role gives none; otherwise the stored role |
| Auth.RoleRank | Auth.js:29-33 | admin 3, landlord 2, tenant 1; other roles have no rank |
| Auth.CheckPermission | Auth.js:18-42 | no user, a failed read, no document, a missing or empty role, or an unknown role denies; otherwise permitted iff the user's rank is at least the required one |
| Auth.OwnRolePasses | Auth.js:29-36 | a known role passes its own requirement |
| Auth.PermissionMonotone | Auth.js:29-36 | passing a requirement implies passing every requirement ranked no higher |
| Auth.AdminPassesTenantOnlyTenant | Auth.js:29-36 | an admin passes every known requirement; a tenant passes only "tenant" |
| Auth.HierarchyLookup | Auth.js:29-36 | looking up a role finds its rank, an inherited Object.prototype member, or undefined |
| Auth.GreaterEq | Auth.js:36 | `>=` compares numbers; anything against undefined is false; an inherited member compared with itself is true |
| Auth.CheckPermissionAsWritten | Auth.js:18-42 | no user, a failed read, no document or no role denies |
| Auth.InheritedRolePassesAsWritten | Auth.js:29-36 | as written, role "toString" passes a "toString" requirement; the intended check denies it |
| Auth.AsWrittenAgreesOffPrototypeKeys | Auth.js:36 | when either role is not an inherited key, the written check is the intended one |
| Announcements.NewerIsStrictWeakOrder | screens/Announcements.js:31 | the newest-first comparator is a strict weak order |
| Announcements.SortIsNewestFirst | screens/Announcements.js:31 | the sorted list is a permutation of the fetch with non-increasing `createdAt` |
| Announcements.SortKeepsNewestFirst | screens/Announcements.js:31 | a list already newest first, ties included, is unchanged |
| Announcements.Find | screens/Announcements.js:74 | none iff no announcement has the id; otherwise a listed announcement with the id |
| Announcements.FindIsFirst | screens/Announcements.js:74 | the result is the first announcement with the id |
| Announcements.Removed | screens/Announcements.js:130 | the delete filter keeps no announcement with the id and never lengthens the list; RemovedExactly gives the converse |
| Announcements.RemovedExactly | screens/Announcements.js:130 | after a delete no announcement has the id, and every other one remains |
| Announcements.RemovedKeepsOrder | screens/Announcements.js:130 | the remaining announcements keep their order |
| Announcements.RemovedStaysNewestFirst | screens/Announcements.js:129-131 | a newest-first list stays newest first after a delete |
| Announcements.AnnouncementsScreen.constructor | screens/Announcements.js:16-22 | modals closed, empty drafts, empty list, no edit id |
| Announcements.AnnouncementsScreen.GetAnnouncements | screens/Announcements.js:25-41 | the fetched array is sorted in place, newest first, and shown |
| Announcements.AnnouncementsScreen.HandleAnnouncementSubmit | screens/Announcements.js:43-71 | an empty title or details sends nothing and changes nothing; a failed write changes nothing; after success the drafts are cleared, and a successful re-fetch is shown unsorted and closes the modal |
| Announcements.AnnouncementsScreen.HandleEdit | screens/Announcements.js:73-82 | an unknown id changes nothing; a listed one loads its title and details, sets the edit id and opens the edit modal |
| Announcements.AnnouncementsScreen.HandleEditSubmit | screens/Announcements.js:84-113 | an empty title or details sends nothing and changes nothing; a failed update changes nothing; after success the drafts and edit state reset and a re-fetch is shown |
| Announcements.AnnouncementsScreen.HandleDelete | screens/Announcements.js:117-140 | after a successful delete the list loses every announcement with the id |
| Home.ImageOrNull | screens/Home.js:120 | no image or an empty uri is stored as null; otherwise the uri is kept |
| Home.Submission | screens/Home.js:103-122 | nothing is sent unless title, description and type are filled; the request is numbered one past the fetched count, has status "Pending", and carries the form's fields |
| Home.FormComplete | screens/Home.js:104 | title, description and type are required and the priority is ignored: clearing it never changes the verdict |
| Home.PriorityNotValidated | screens/Home.js:104 | an empty priority neither blocks nor alters acceptance, and it is stored empty |
| Home.SubmissionNumberFresh | screens/Home.js:110-111 | while stored requests are numbered 1..n, the new number is unused and the numbering stays 1..n+1 |
| Home.OfferedPrioritiesColoured | screens/Home.js:149-153 | each priority the form offers has its own colour, none the default |
| Home.FirstThree | screens/Home.js:306 | the first min(3, n) announcements, in order |
| Home.HomeScreen.RecentAnnouncements | screens/Home.js:306 | the list receives a prefix of at most three of the stored announcements |
| Home.ShownAreNewest | screens/Home.js:75 | the three shown are newest first and no older than any announcement left out |
| Home.HomeScreen.constructor | screens/Home.js:52-66 | empty form, modal closed, no announcements, count 0, loading |
| Home.HomeScreen.LoadRequests | screens/Home.js:89-101 | the count becomes the fetched number (kept on failure), and loading ends |
| Home.HomeScreen.GetRecentAnnouncements | screens/Home.js:72-81 | the fetched array is sorted in place, newest first, and kept |
| Home.HomeScreen.HandleRepairRequestSubmit | screens/Home.js:103-137 | sends `Submission` of the form; nothing changes unless it is sent and written; then title, description, type and image reset, the modal closes and the count reloads; the priority is never reset |
| Maintenances.SortRequestsByPriority | screens/Maintenances.js:22-24 | the same array is returned, sorted in place newest first |
| Maintenances.SortedIsNewestFirstPermutation | screens/Maintenances.js:23 | the result is a permutation of the fetch with non-increasing `createdAt` |
| Maintenances.PriorityIgnored | screens/Maintenances.js:21-23 | fetches that differ only in priorities are arranged the same way |
| Maintenances.OlderHighStaysBehind | screens/Maintenances.js:21-23 | an older "High" request stays behind a newer "Low" one |
| Documents.Toggle | screens/Documents.js:34-41 | pressing the open document closes the viewer; pressing another switches to it |
| Documents.ToggleTwiceFromClosed | screens/Documents.js:34-41 | from closed, two presses of the same card close it again |
| Documents.ToggleOpensAtMostOne | screens/Documents.js:27 | after a press the viewer holds the pressed uri or nothing |
| Documents.ShowDocuments | screens/Documents.js:95 | the documents button always shows documents |
| Documents.ShowBills | screens/Documents.js:96 | the bills button always shows bills |
| Documents.ViewButtonsIdempotent | screens/Documents.js:95-96 | pressing either button again changes nothing |
| Dashboard.OccupiedCount | screens/Dashboard.js:27 | the occupied count is at most the total |
| Dashboard.UnoccupiedCount | screens/Dashboard.js:29 | `totalCount - occupiedCount` is between 0 and the total; CountsAddUp shows it is the number of vacant apartments |
| Dashboard.CountsAddUp | screens/Dashboard.js:27-29 | unoccupied is the number of vacant apartments, and occupied + unoccupied = total |
| Dashboard.BuildingCounts | screens/Dashboard.js:16-23 | the building's list has 4 occupied and 2 unoccupied apartments |
| Dashboard.DropdownData | screens/Dashboard.js:50-53 | one entry per apartment in the same order, key to key and name to value |
| AnnouncementCard.Prefix30 | components/AnnouncementCard.js:24 | the first min(30, n) UTF-16 code units, possibly half of a surrogate pair |
| AnnouncementCard.Displayed | components/AnnouncementCard.js:24 | full details when expanded or at most 15 code units long; otherwise the first 30 code units and " read more..." |
| AnnouncementCard.MidLengthShownWhole | components/AnnouncementCard.js:24 | collapsed details of 16 to 30 code units are shown whole, with the suffix appended |
| AnnouncementCard.LongDetailsCut | components/AnnouncementCard.js:24 | longer details are cut to 30 code units plus the suffix |
| AnnouncementCard.CollapsedShowsStart | components/AnnouncementCard.js:24 | a collapsed card starts with the first min(30, n) code units of the details |
| AnnouncementCard.BmpTextThresholds | components/AnnouncementCard.js:24 | for text within the Basic Multilingual Plane the 15 threshold counts characters |
| AnnouncementCard.EmojiCountDouble | components/AnnouncementCard.js:24 | text of 8 to 15 emoji already exceeds 15 code units and is shown whole with the suffix |
| AnnouncementCard.ToggleExpand | components/AnnouncementCard.js:9-12 | a tap flips the flag |
| AnnouncementCard.ToggleTwice | components/AnnouncementCard.js:7-12 | two taps restore the card; one tap on a fresh (collapsed) card shows the full details |
| RequestCard.PriorityColor | components/RequestCard.js:33-44 | High, Medium and Low map to their colours exactly; every other value maps to the default "#000"; the result is one of the four |
| RequestCard.OtherCasingsAreDefault | components/RequestCard.js:41-42 | an empty priority and other casings get the default colour |

## Left out

- Messaging channel: no seeded, multi-subscriber channel with resumable cursors and send reconciliation exists in the code. The chat screen keeps only dummy messages and leaves its backend calls as TODOs (screens/chat.js:22, screens/chat.js:34).
- Firebase authentication and Firestore calls are not modelled. Their results are handler inputs: success or failure, an error code, a re-fetched list, a profile read or a request count. Functions.js (thin CRUD wrappers and stubs) is not part of this model.
- JavaScript dates: `new Date` parsing and subtraction are replaced by integer timestamps (`createdAt`) and by code-point order on ISO date strings (Events). A missing or unparsable date makes the source's comparator return NaN; that case is not modelled. The date field is free text (only its placeholder reads YYYY-MM-DD), so a date that `new Date` parses but that is not zero-padded ISO, such as "2025-3-1" against "2025-10-01", is ordered by time in the source but by code points in the model.
- TextUtil.Lower: ASCII-only lower-casing; Unicode case mapping of `toLowerCase` is not modelled.
- TextUtil.LexLess: code-point order stands in for `localeCompare`. The source compares the four upper-case category keys with it, and on those keys the two orders agree.
- Signup.HandleSignUp: the stored profile omits the timestamps and the default profile picture, and the loading flag is not modelled.
- Login.Press: the reset of the error code to 0 on every keystroke is not modelled.
- Announcements.AnnouncementsScreen.GetAnnouncements: the screen's focus effect has no dependency list, so it re-fetches and re-sorts after every render. The model runs it once per call. The failure path only logs, so it changes nothing and is not modelled separately.
- Home.HomeScreen.HandleRepairRequestSubmit: the count fetch before the write is an input that always succeeds. In the source a failure there rejects the handler's promise before any write. The success alert and the asynchronous timing of `loadRequests` are not modelled.
- Presentation is not modelled: styles, cards without logic, navigation wiring, animations, haptics, the image picker, the emergency/NFC/incident modals, the web view loading flag, and the Contact, Profile and SignOut screens.

## Findings

| source | as written | input that shows it | evidently intended | confidence | as-written member | corrected member |
|---|---|---|---|---|---|---|
| screens/Events.js:96 | a new event's id is the list length plus one, as a string | load the three events ("1", "2", "3"), delete "1", add any complete event: the list holds two events with id "3" (the list is keyed by id, and a later toggle or delete hits both) | a fresh id; the model uses one more than the largest numeric id | medium, not executed | Events.AsWrittenIdCollides | Events.AddedKeepsIdsUnique |
| Auth.js:29-36 | the role table is a plain object literal, so keys inherited from `Object.prototype` are found too | a profile with role "toString" and required role "toString": the inherited method is compared with itself and `>=` is true | roles outside admin, landlord and tenant deny | low (no caller in the repository), not executed | Auth.InheritedRolePassesAsWritten | Auth.CheckPermission |
