# seoul-festivmeet — a Dafny model of the room, form and locale logic

This project models the parts of the seoul-festivmeet web application that
decide something, rather than only render it:

- the `/api/chat-rooms` route, whose `GET` lists every chat room newest first
  with its participant count and whose `POST` creates a room and then adds its
  creator as a participant (`ChatRoomsApi`, with the two tables as the fields
  of the class `RoomStore`);
- the "Create Chat Room" page, which trims the fields, refuses a blank name and
  turns the server's answer into an error text or a redirect (`ChatCreatePage`);
- the matching-room form, with its date filter, its validator and the room data
  it builds (`MatchingRoomForm`);
- the onboarding questionnaire: a bounded step counter, an answer map and the
  multi-select toggle (`QuestionSteps`);
- the swipeable event feed with its ten-row pages, and the event search page
  (`EventsFeed`, `EventsSearch`);
- the profile form: populating from `user_details`, editing, the date-of-birth
  string and the update-or-insert submit (`ProfileForm`);
- locale handling: the server's cookie-driven locale selection (`I18nRequest`),
  the language toggle button (`LangButton`) and `POST /api/set-language`
  (`SetLanguageRoute`).

`Common` holds the pieces of the JavaScript string library these rely on
(`trim`, `startsWith`, `includes`, `split`, `join`, `padStart`, `toString` on
naturals and `Number` on digit strings), with their own properties proved
(trimming is idempotent and empty exactly on whitespace, `join` inverts
`split`, `split` inverts `join` for "; ", decimal printing round-trips).

Every call into Supabase, `fetch`, the identity provider, the cookie store and
the clock is a parameter of the operation that makes it: the operation is
proved for every answer those calls could give. React components are classes
whose fields are the component's state; each event handler is one method. The
two handlers that await while other handlers can observe `loading` (the feed's
`fetchEvents` and the search's `handleSearch`) are split at the await into a
begin and a complete step.

The model follows the code as written, including where the repository shows
that something else was meant. The participants route refuses to let a room's
creator leave it ("Delete the room instead",
`app/api/chat-rooms/[id]/participants/route.ts`, lines 115-119), so every room
is meant to keep its creator as a participant. The create route, however,
inserts the room and the creator's participant row in two steps with no
rollback. The model reproduces that (`Post`), and "## Findings" records it with
a corrected handler (`PostAtomic`). The profile form's insert branch cannot be
reached as written, because `.single()` answers an error when no row matches;
"## Findings" records that too. Only the create page trims the room name (its
own check at `app/protected/chat/create/page.tsx`, line 26); the server accepts
any truthy name, including one made only of spaces
(`ChatRoomsApi.BlankNameAccepted`).

## Model

| member | source | states |
|---|---|---|
| ChatRoomsApi.RoomStore.Get | app/api/chat-rooms/route.ts:5-42 | no caller gives 401 "Unauthorized"; a failed query gives 500 with the store's message; otherwise 200 with every stored room exactly once (same multiset), ordered by `created_at` newest first, each paired with the number of its participant rows |
| ChatRoomsApi.RoomStore.Post | app/api/chat-rooms/route.ts:45-112 | the route as written: 401 without a caller, 400 "Invalid request" for an unparseable body or a thrown insert, 400 "Room name is required" for a falsy name, 500 with the message when the room insert fails (nothing written, no participant attempted); on success exactly one room owned by the caller and one participant row, 201 with the room; when the participant insert fails the room stays stored and its creator is not a participant |
| ChatRoomsApi.RoomStore.PostAtomic | app/api/chat-rooms/route.ts:73-105 | the corrected create: the same answers, but either both rows are written and 201 is answered, or the rooms and participants are unchanged (the id counter may still have advanced, as a database sequence does), so every room keeps its creator as participant |
| ChatRoomsApi.NoRollbackScenario | app/api/chat-rooms/route.ts:91-103 | a concrete scenario of the route as written in which the participant insert fails: status 500, one room stored, its creator not a participant |
| ChatRoomsApi.RollbackScenario | app/api/chat-rooms/route.ts:91-103 | the same scenario against the corrected handler: status 500 and no room stored |
| ChatRoomsApi.SortNewestFirst | app/api/chat-rooms/route.ts:32 | `.order("created_at", { ascending: false })`: the result is newest first and has as many rooms as the input |
| ChatRoomsApi.SortNewestFirstMultiset | app/api/chat-rooms/route.ts:32 | the ordering is a permutation: the same rooms, each as often as in the input |
| ChatRoomsApi.InsertByDate | app/api/chat-rooms/route.ts:32 | placing one room into a newest-first list keeps it newest first and one longer |
| ChatRoomsApi.InsertByDateMultiset | app/api/chat-rooms/route.ts:32 | placing a room adds exactly that room and loses none |
| ChatRoomsApi.AddRoomKeepsValid | app/api/chat-rooms/route.ts:73-103 | storing a room under the next id, with or without its participant row, keeps ids unique and every participant row pointing at a stored room |
| ChatRoomsApi.AddRoomAloneLosesCreator | app/api/chat-rooms/route.ts:91-103 | storing a room without its creator's participant row leaves a room whose creator is not a participant |
| ChatRoomsApi.SortKeepsSorted | app/api/chat-rooms/route.ts:32 | ordering rooms already newest first leaves them as they are |
| ChatRoomsApi.BlankNameAccepted | app/api/chat-rooms/route.ts:65 | a name of spaces passes the server's `!name` check; exactly `undefined`, `null`, `false`, `0` and `""` are falsy |
| ChatCreatePage.CreateChatRoomPage.HandleSubmit | app/protected/chat/create/page.tsx:19-59 | a blank or whitespace-only name sets "Room name is required" and sends nothing; otherwise the trimmed name and description are sent; a thrown value shows its message (or "An unknown error occurred" if it is not an Error); a non-OK answer shows the server's `error` or "Failed to create chat room"; success navigates to `/protected/chat/<id>` with no error; `isLoading` is false on every path |
| ChatCreatePage.CaughtMessage | app/protected/chat/create/page.tsx:55 | a thrown `Error` shows its own message, any other thrown value "An unknown error occurred" |
| ChatCreatePage.CreateChatRoomPage.SetName | app/protected/chat/create/page.tsx:82 | the name input's `onChange` stores the typed text as the name |
| ChatCreatePage.CreateChatRoomPage.SetDescription | app/protected/chat/create/page.tsx:93 | the description input's `onChange` stores the typed text as the description |
| ChatCreatePage.RejectionMessage | app/protected/chat/create/page.tsx:44-47 | the server's `error` field when present and non-empty, else "Failed to create chat room" |
| ChatCreatePage.ClientStricterThanServer | app/protected/chat/create/page.tsx:26-41 | whatever the page sends passes the server's name check; the page refuses a name exactly when it is all whitespace; a non-empty whitespace name would pass the server |
| Common.TrimSlice | app/protected/chat/create/page.tsx:26-40 | `trim()` returns a contiguous slice of the text, only whitespace is cut on either side, and the result neither starts nor ends with whitespace |
| Common.TrimEmptyIffAllWhitespace | app/protected/chat/create/page.tsx:26 | `name.trim()` is empty exactly when the name is all whitespace |
| Common.TrimIdempotent | app/protected/chat/create/page.tsx:39-40 | trimming the trimmed text changes nothing |
| MatchingRoomForm.FormErrors | app/protected/chatting/create_room/page.tsx:33-41 | each error key is set exactly when its check fails: no date; empty title; person count empty, 0 or below 2; unless no limit, a bound empty or min above max (min equal to max is accepted); neither gender chosen |
| MatchingRoomForm.CreateRoomPage.Validate | app/protected/chatting/create_room/page.tsx:33-44 | stores the error keys and returns true exactly when there are none |
| MatchingRoomForm.EnabledDays | app/protected/chatting/create_room/page.tsx:46-54 | with the event span and holidays declared at lines 16-18, the selectable days are exactly 12–23 May 2025 without the 14th and 21st; the first and last day are selectable, every day outside the span is not |
| MatchingRoomForm.CreateRoomPage.SelectDate | app/protected/chatting/create_room/page.tsx:116-120 | the picked (or cleared) date is stored and the calendar closes; that the day is enabled is required of the caller, standing for the picker's `disabled` prop, and is not proved |
| MatchingRoomForm.CreateRoomPage.HandleCreate | app/protected/chatting/create_room/page.tsx:56-79 | each error key is set exactly when its check in `validate` fails on the form; room data is built exactly when the form passes all five checks, which is exactly when no key is set; it then carries the event id, the date, the count, the title, `{noLimit}` or `{min, max}` and both gender flags, and the page goes to `/protected/events/test`; otherwise nothing is built and the page stays |
| MatchingRoomForm.CreateRoomPage.ToggleCalendar | app/protected/chatting/create_room/page.tsx:106 | clicking the date input flips whether the calendar is open |
| MatchingRoomForm.CreateRoomPage.SetPersonCount | app/protected/chatting/create_room/page.tsx:134 | only the person count changes, to the value entered |
| MatchingRoomForm.CreateRoomPage.SetRoomTitle | app/protected/chatting/create_room/page.tsx:145 | only the title changes, to the text entered |
| MatchingRoomForm.CreateRoomPage.SetMinAge | app/protected/chatting/create_room/page.tsx:158 | only the age minimum changes; the maximum and `noLimit` are kept |
| MatchingRoomForm.CreateRoomPage.SetMaxAge | app/protected/chatting/create_room/page.tsx:166 | only the age maximum changes; the minimum and `noLimit` are kept |
| MatchingRoomForm.CreateRoomPage.PressNoLimit | app/protected/chatting/create_room/page.tsx:169 | the "X" button flips `noLimit` and changes nothing else in the form |
| MatchingRoomForm.CreateRoomPage.PressMale | app/protected/chatting/create_room/page.tsx:179 | the male button flips `male` and changes nothing else in the form |
| MatchingRoomForm.CreateRoomPage.PressFemale | app/protected/chatting/create_room/page.tsx:183 | the female button flips `female` and changes nothing else in the form |
| MatchingRoomForm.AgeLimitOf | app/protected/chatting/create_room/page.tsx:65 | `{ noLimit: true }` exactly when no limit is set, otherwise the two bounds |
| MatchingRoomForm.ToggleNoLimit | app/protected/chatting/create_room/page.tsx:169 | flips `noLimit` and keeps both bounds |
| MatchingRoomForm.ToggleMale | app/protected/chatting/create_room/page.tsx:179 | flips `male` and keeps `female` |
| MatchingRoomForm.ToggleFemale | app/protected/chatting/create_room/page.tsx:183 | flips `female` and keeps `male` |
| QuestionSteps.QuestionStepsPage.GoNext | app/protected/Customization_Settings/question-steps.tsx:43-50 | advances below the last question and stays on it; the step stays within the question list |
| QuestionSteps.QuestionStepsPage.GoBack | app/protected/Customization_Settings/question-steps.tsx:52-54 | goes back above the first question and stays at 0 |
| QuestionSteps.QuestionStepsPage.HandleSingleAnswer | app/protected/Customization_Settings/question-steps.tsx:30-33 | records the answer for the current step, then advances as `goNext` does |
| QuestionSteps.QuestionStepsPage.HandleMultipleAnswer | app/protected/Customization_Settings/question-steps.tsx:35-41 | the current step's list becomes the toggled list; the step and the other steps' answers stay; no list ever repeats an option |
| QuestionSteps.Toggle | app/protected/Customization_Settings/question-steps.tsx:36-39 | the option is in the new list exactly when it was not in the old one; every other option keeps its membership |
| QuestionSteps.ToggleNoDuplicates | app/protected/Customization_Settings/question-steps.tsx:36-39 | toggling a list without duplicates gives a list without duplicates |
| QuestionSteps.Without | app/protected/Customization_Settings/question-steps.tsx:38 | `filter` removes the option and keeps exactly the other elements |
| QuestionSteps.WithoutMultiset | app/protected/Customization_Settings/question-steps.tsx:38 | `filter` keeps every other element with its multiplicity and drops every copy of the option |
| QuestionSteps.WithoutAbsent | app/protected/Customization_Settings/question-steps.tsx:38 | filtering out an option the list lacks leaves the list as it is |
| QuestionSteps.WithoutNoDuplicates | app/protected/Customization_Settings/question-steps.tsx:38 | filtering keeps a list free of duplicates |
| QuestionSteps.ToggleTwice | app/protected/Customization_Settings/question-steps.tsx:35-41 | toggling an absent option twice restores the list; toggling a present one twice restores the same options |
| QuestionSteps.ToggleFlipsSelection | app/protected/Customization_Settings/question-steps.tsx:35-41 | a multi-select toggle flips whether that option shows as selected and leaves other options and other steps unchanged |
| QuestionSteps.IsSelectedAfterSingle | app/protected/Customization_Settings/question-steps.tsx:77-79 | after a single answer exactly the chosen option shows as selected at that step, and every other step shows what it showed before |
| QuestionSteps.QuestionStepsPage.HandleTimeInput | app/protected/Customization_Settings/question-steps.tsx:56-64 | acts only on Enter with an hour from 0 to 24: stores the text followed by "시" and advances; otherwise nothing changes |
| QuestionSteps.HourAccepted | app/protected/Customization_Settings/question-steps.tsx:59 | every hour from 0 to 24, as `toString` writes it, is accepted with its own value |
| QuestionSteps.NumberOf | app/protected/Customization_Settings/question-steps.tsx:59 | `Number("")` is 0; only digit strings give a number |
| EventsFeed.EventsFeedView.BeginFetch | components/Events/EventsFeed.tsx:30-38 | nothing happens while loading or once the feed is exhausted; otherwise `loading` is set and rows `page·10` to `page·10+9` are requested newest first |
| EventsFeed.EventsFeedView.CompleteFetch | components/Events/EventsFeed.tsx:40-47 | fewer than ten rows end the feed; a non-empty page is appended in order and advances `page`, an empty one changes neither; an error changes only `loading`, which ends false; the index and page invariants hold |
| EventsFeed.PageQuery | components/Events/EventsFeed.tsx:35-38 | the inclusive range starts at `page·10` and holds ten rows, ordered by start date descending |
| EventsFeed.PagesTile | components/Events/EventsFeed.tsx:38 | consecutive pages cover adjacent, non-overlapping ranges |
| EventsFeed.EventsFeedView.TouchStart | components/Events/EventsFeed.tsx:56-60 | records both touch coordinates and starts swiping |
| EventsFeed.EventsFeedView.TouchMove | components/Events/EventsFeed.tsx:62-76 | follows the finger only after a touch start and only when the move is more horizontal than vertical |
| EventsFeed.EventsFeedView.TouchEnd | components/Events/EventsFeed.tsx:78-97 | past +100 goes back one card (not below 0), past −100 goes forward one card or, on the last card, starts a fetch when more may come; otherwise the index stays; the offset and both touch starts are reset |
| EventsFeed.EventsFeedView.AutoFetch | components/Events/EventsFeed.tsx:116-120 | at or past the last loaded card, with more to come and nothing loading, a fetch of the current page starts; otherwise nothing happens |
| EventsFeed.Tilt | components/Events/EventsFeed.tsx:123-124 | a tenth of the offset clamped to [−15, 15] |
| EventsFeed.EventsFeedView.StatusText | components/Events/EventsFeed.tsx:191 | "Loading more..." while loading, otherwise "Swipe right/left for previous/next" |
| EventsFeed.EventsFeedView.ShownCard | components/Events/EventsFeed.tsx:17 | the card at the current index, present exactly when events are loaded |
| EventsSearch.EventsSearchView.SetSearchQuery | components/Events/EventsSearchFeed.tsx:39-41 | the box's text becomes the query |
| EventsSearch.EventsSearchView.LoadingText | components/Events/EventsSearchFeed.tsx:83 | "Loading..." exactly while loading, otherwise nothing |
| EventsSearch.EventsSearchView.BeginSearch | components/Events/EventsSearchFeed.tsx:18-29 | sets `loading` and `searched`, resets `page` to 0 and `hasMore` to true, and sends an `ilike` of `%query%` on `event_name`, start date descending, limit 10 |
| EventsSearch.EventsSearchView.CompleteSearch | components/Events/EventsSearchFeed.tsx:31-36 | results replace the list; fewer than ten clear `hasMore`; an error keeps the list; `loading` ends false |
| EventsSearch.Search | components/Events/EventsSearchFeed.tsx:18-37 | a whole search: the query for the box's text is sent, the list is the result (or unchanged on error) and `hasMore` holds exactly when ten rows came back (or the query failed) |
| EventsSearch.QueryFor | components/Events/EventsSearchFeed.tsx:24-29 | the pattern is the query wrapped in `%`, on `event_name`, start date descending, ten rows |
| EventsSearch.EventsSearchView.Shown | components/Events/EventsSearchFeed.tsx:68-80 | "Search to display events" before any search, "No events found" after an empty one, otherwise the cards |
| ProfileForm.DateOfBirth | components/account/profileForm.tsx:87 | year, '-', month padded to two, '-', day padded to two: the year is kept as the prefix and the length adds up |
| ProfileForm.PadKeepsLongParts | components/account/profileForm.tsx:87 | a one-character part gets a leading '0', a longer one is not truncated |
| ProfileForm.TwoDigits | components/account/profileForm.tsx:87 | the reference two-digit spelling of a number below 100: two digits that read back as the number |
| ProfileForm.TwoDigitPart | components/account/profileForm.tsx:87 | a month or day below 100, written by `toString` and padded to two characters, is exactly its two-digit spelling |
| ProfileForm.DateOfBirthReadsBack | components/account/profileForm.tsx:87 | for numeric year, month and day (month and day below 100) the string is the year, '-', the month's two digits, '-', the day's two digits, so the month and day fields read back as the numbers entered |
| ProfileForm.Populated | components/account/profileForm.tsx:42-50 | null columns become "" (consent `false`), a missing date of birth gives the current year, "1" and "1" |
| ProfileForm.ProfileFormView.Load | components/account/profileForm.tsx:27-57 | with a user id, a fetched row fills the form; an error leaves it (and so would an answer without a row, which `.single()` does not give) |
| ProfileForm.ProfileFormView.HandleChange | components/account/profileForm.tsx:59-64 | only the named field changes |
| ProfileForm.ProfileFormView.HandleGenderSelect | components/account/profileForm.tsx:66-71 | only `gender` changes |
| ProfileForm.ProfileFormView.HandleMarketingConsentChange | components/account/profileForm.tsx:73-78 | only `marketingConsent` changes |
| ProfileForm.ProfileFormView.Submit | components/account/profileForm.tsx:80-143 | the handler once the lookup has answered: an error writes nothing and shows the failure message; a row is updated by `ref_id` with the five fields, no row is inserted with `user_id`; the message is the matching success text or the failure text; the banner is green exactly when no step failed; `isSubmitting` ends false |
| ProfileForm.Single | components/account/profileForm.tsx:90-94 | `.single()` gives the row exactly when one row matches and an error otherwise, never "no row" |
| ProfileForm.MaybeSingle | components/account/profileForm.tsx:90-94 | `.maybeSingle()` gives the row for one match, "no row" for none, and an error for a failed query or several matches |
| ProfileForm.ProfileFormView.HandleSubmit | components/account/profileForm.tsx:80-143 | the handler as written: exactly one matching row is updated with the matching message; any other lookup writes nothing and shows the failure message; no insert is ever made; the banner is green exactly when one row matched and the update succeeded |
| ProfileForm.ProfileFormView.HandleSubmitMaybeSingle | components/account/profileForm.tsx:90-135 | the corrected handler: one matching row is updated, no matching row is inserted with "Profile created successfully!" (or the failure text if the insert fails), and a failed or ambiguous lookup writes nothing |
| ProfileForm.NewUserScenario | components/account/profileForm.tsx:90-135 | a concrete scenario of the handler as written: a user with no row submits, nothing is written and the failure message is shown |
| ProfileForm.NewUserScenarioMaybeSingle | components/account/profileForm.tsx:90-135 | the same scenario against the corrected handler: the row is inserted and the creation message is shown |
| ProfileForm.BannerColours | components/account/profileForm.tsx:256-257 | both success messages contain "success" and the failure message does not |
| I18nRequest.CookieLocale | i18n/request.ts:7 | an absent or empty cookie gives "en", otherwise the cookie's value |
| I18nRequest.SafeLocale | i18n/request.ts:11-12 | the result is "en" or "kor"; a supported value passes unchanged, any other becomes "en" |
| I18nRequest.SafeLocaleIdempotent | i18n/request.ts:12 | normalising twice is normalising once |
| I18nRequest.GetRequestConfig | i18n/request.ts:4-20 | the locale is supported, is the cookie's own when supported, is "en" without a cookie, and names the message file loaded |
| I18nRequest.MessageFile | i18n/request.ts:14 | `../messages/<locale>.json`, with the locale readable back from the path |
| I18nRequest.MessageFileInjective | i18n/request.ts:14 | different locales load different message files |
| I18nRequest.TwoMessageFiles | i18n/request.ts:11-14 | only the message files of "en" and "kor" are ever loaded |
| LangButton.FindEntry | components/button.tsx:12 | `find`: the first row starting with `NEXT_LOCALE=`, or none when no row does |
| LangButton.FirstEqualsAfterName | components/button.tsx:13 | in a row starting with `NEXT_LOCALE=` the first '=' is the one after the name |
| LangButton.EntryValue | components/button.tsx:13 | `row.split('=')[1]` for a `NEXT_LOCALE=` row: a value with no '=' in it |
| LangButton.EntryValueBetweenEquals | components/button.tsx:13 | the value read is the text after `NEXT_LOCALE=` up to the next '=' or the end |
| LangButton.CookieLocale | components/button.tsx:10-13 | the value of the first `NEXT_LOCALE=` entry of the `; `-separated cookie, present exactly when there is such an entry |
| LangButton.ReadsBackEntry | components/button.tsx:10-13 | a cookie joined from entries whose first `NEXT_LOCALE` entry holds a value without '=' reads back as exactly that value |
| LangButton.LangButtonView.Mount | components/button.tsx:6-15 | a non-empty cookie value replaces the locale; an absent entry or empty value leaves it (initially "en") |
| LangButton.Toggled | components/button.tsx:18 | "en" becomes "kor" and every other value "en" |
| LangButton.ToggleInvolution | components/button.tsx:18 | on "en" and "kor", toggling twice gives the locale back |
| LangButton.LangButtonView.ToggleLocale | components/button.tsx:17-24 | the state and the written cookie `NEXT_LOCALE=<new>; path=/` carry the same toggled locale |
| LangButton.WrittenCookie | components/button.tsx:20 | the assigned cookie is the entry `NEXT_LOCALE=<locale>` followed by `; path=/` |
| LangButton.ToggleIsReadBack | components/button.tsx:10-21 | the toggled locale stored in the cookie reads back in the button, and the server's locale selection (`i18n/request.ts`) keeps it |
| LangButton.LangButtonView.Label | components/button.tsx:28 | "한국어로 변경" exactly when the locale is "en", otherwise "Switch to English" |
| SetLanguageRoute.LangParam | app/api/set-language/route.ts:5 | a missing or empty `lang` gives "en", otherwise `lang` itself |
| SetLanguageRoute.Post | app/api/set-language/route.ts:3-14 | the body is always a success; the `NEXT_LOCALE` cookie carries `lang` verbatim, for path "/" and 31536000 seconds |
| SetLanguageRoute.StoredLanguageIsNormalisedLater | app/api/set-language/route.ts:5-8 | an unsupported language is stored as asked and the next locale selection (`i18n/request.ts`) turns it into "en"; a supported one is kept |

## Left out

- The room get/update/delete, join/leave, message and realtime routes under `app/api/chat-rooms/[id]/` are not part of this model; only listing and creating rooms is.
- Supabase, `fetch`, `auth.getUser`, `cookies()`, `document.cookie` and the dynamic `import` of the message file are parameters or returned values, not modelled calls. `.single()` on the profile lookup is modelled by what it answers for the matching rows: the row for exactly one, an error otherwise (`ProfileForm.Single`).
- `router.push`, `router.refresh` and `window.location.reload` are returned as the route navigated to (or, for the reloads, left to the caller); `console.log` and `console.error` are left out.
- React timing is not modelled: state batching, the stale `answers` logged by `goNext`, effect scheduling and the attaching of touch listeners. Each handler is one atomic step; only `fetchEvents` and `handleSearch` are split at their await.
- JavaScript `Date` is replaced by whole day numbers (the matching-room calendar) and by a date already split into year, month and day (the profile row); `toLocaleDateString`, time zones and time of day are left out.
- QuestionSteps.NumberOf: only the empty string and strings of decimal digits are numbers; text that `Number` also accepts (signs, decimals, exponents, surrounding spaces) is treated as NaN, so the time question's acceptance is modelled for digit strings only.
- ChatRoomsApi.RoomStore.Get: JSON numbers are modelled as integers; the store's own `count` aggregation and row format are not modelled beyond the count.
- ChatCreatePage.CreateChatRoomPage.HandleSubmit: an `error` field that is truthy but not a string, and an OK answer whose body lacks `data.id`, are folded into "reading the body throws".
- EventsSearch.EventsSearchView.CompleteSearch: a store answer with neither data nor an error, where `data.length` would throw and leave `loading` set, is not modelled.
- The card colour interpolation (`interpolateRgb`, `Math.round` on the swipe ratios) is floating-point presentation and is left out; the tilt is modelled over reals.
- ProfileForm.ProfileFormView.Load: the mount fetch's "no row" outcome does not occur under `.single()`, which answers zero rows with an error; both leave the form unchanged, so the contract covers it either way.
- MatchingRoomForm.CreateRoomPage.SelectDate: that only enabled days are picked is a precondition standing for react-day-picker's `disabled` prop (lines 116-120 of the page); the picker is not modelled, so this, the `Valid` invariant and the enabled date in `HandleCreate`'s room data rest on that library.
- MatchingRoomForm.NumberField: the numeric inputs hold integers only. `Number(e.target.value)` can also give fractions (a person count of 2.5 passes `validate` and is sent as it is) and gives 0, not `''`, for a cleared input; the setters take whatever value the caller passes.
- The `date_of_birth` sent to the store is the formatted string; how the database parses it is not modelled.
- The profile insert keys the new row by `user_id` while the lookup and update use `ref_id`; the model reproduces both as written and asserts nothing about their relation.
- Pure presentation files, the middleware and the configuration files are not part of this model.

## Findings

| source | as written | input that shows it | evidently intended | confidence | as-written member | corrected member |
|---|---|---|---|---|---|---|
| app/api/chat-rooms/route.ts:91-103 | the room row is inserted, then the creator's participant row; when the second insert fails the handler answers 500 but the room stays stored | caller "u" posts `{ name: "Trivia" }`, the room insert succeeds and the participant insert fails | room and creator participant created as one unit, the room removed when the participant insert fails, so no room exists without its creator as participant | not executed | ChatRoomsApi.NoRollbackScenario | ChatRoomsApi.RoomStore.PostAtomic |
| components/account/profileForm.tsx:90-135 | the existence lookup uses `.single()`, which answers an error when no row has the user's `ref_id`; the handler throws it, so the insert branch and "Profile created successfully!" are never reached | a user without a `user_details` row submits the form | a user without a row gets one inserted and sees "Profile created successfully!", as a lookup by `.maybeSingle()` allows | not executed | ProfileForm.NewUserScenario | ProfileForm.ProfileFormView.HandleSubmitMaybeSingle |
