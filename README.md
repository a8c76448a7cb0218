# Session booking: a verified model

This project models the decision logic of a small Next.js booking application for development conversations ("ontwikkelgesprekken"). Its user interface is in Dutch. Staff sign up for published sessions. Admins manage sessions, page headers and registrations, and export registrations. Three maintenance scripts check the `.env` files that hold the Supabase credentials.

All persistence goes through Supabase. The model therefore works on plain data: each query's answer is an input, and the tables are sequences of records. The logic around those calls is modelled and proved:

- **Registration admission** (`Registrations`). The registration table is a class whose `Register` method runs the checks in the handler's order: schema, published session, capacity, duplicate, one insert. Sequential runs keep two invariants: active rows never exceed a session's capacity, and there is at most one active row per session and e-mail address.
- **Single active header** (`Headers`). The header table is an array. It is switched off in place by the bulk update and then grown by the insert.
- **Request validation** (`Validation`). The registration, session, header and cancellation schemas, with the `HH:MM` pattern written out character by character and times compared as minutes of the day.
- **Cutoff, formatting and tokens** (`Utils`), and the **session card's** seat classification (`SessionCard`).
- **The session form** (`SessionForm`). Time parsing and normalisation, date storage and display forms, the ordered client-side checks, the submitted body and the mapping of server errors. The form's state is a class.
- **Listings.** Counting folds (`Counting`, `SessionCounts`, `SessionsPage`, `Dashboard`, `InloopPage`), order-preserving filters (`Lists`, `SessionTable`, `RegistrationTable`, `AdminRegistrations`), the public list's distinct sorted locations and three sort orders (`SessionList`, `Sorting`), the queries the pages issue (`SessionQueries`, `RegistrationQueries`) and the label maps (`Labels`).
- **Text generation.** The CSV export and how it departs from section 2 of RFC 4180 (`ExportCsv`). The mailto link of the request modal, in the form of section 2 of RFC 6068, over a concrete `encodeURIComponent` (`RequestModal`, `UriComponent`). The colleague photo upload's guards and storage path (`Upload`).
- **The `.env` scripts.** `VerifyEnvFormat`, `CheckEnv` and `SupabaseEnvLoader`, over the shared `key=value` line reading (`EnvLine`) and the JavaScript string operations they use (`Text`).

`Records` holds the entities of `types/index.ts`, `Badges` the badge colours and `Wrappers` the `Option` type.

The things the model treats as inputs are these:

- instants, as integer milliseconds;
- the current date, as an ISO string;
- random draws;
- the e-mail and URL checks of the validation library, as predicates;
- locale date rendering, as a function;
- the store's answers, including insert failures.

## Model

| member | source | states |
|---|---|---|
| Validation.ClockHours | lib/validation.ts:18 | the hour of a text matching the time pattern is below 24 |
| Validation.ClockMinutes | lib/validation.ts:18 | the minute of a text matching the time pattern is below 60 |
| Validation.ClockTextMatches | lib/validation.ts:18-19 | every hour 00–23 and minute 00–59 written as "HH:MM" matches the pattern and reads back as that hour and minute |
| Validation.ClockTimeIsText | lib/validation.ts:18-19 | nothing else matches: a matching text is exactly "HH:MM" of its own hour and minute |
| Validation.RefinementMinutesOfClock | lib/validation.ts:40-43 | splitting a matched time at ':' and computing parts[0]·60 + parts[1] with `Number` gives its minute of the day |
| Validation.NumberOfTrim | lib/validation.ts:40-41 | `Number` skips white space at both ends exactly as `trim` does, then reads the literal |
| Validation.NumberOfDigits | lib/validation.ts:40-41 | a text of decimal digits reads as its decimal value |
| Validation.NoColonIsNaN | lib/validation.ts:40-43 | a time without ':' has no second part, so the refinement's sum is NaN |
| Validation.OutOfRangeEndCompared | lib/validation.ts:38-45 | the refinement also runs on times the pattern rejected: "09:60" reads as 600 minutes, not after "10:00", so the end-time issue is filed |
| Validation.NonNumericEndCompared | lib/validation.ts:38-45 | a non-empty end time without ':' reads as NaN and compares false, so the end-time issue is filed |
| Validation.ClockTimesNotAfter | lib/validation.ts:38-45 | for two well-formed times the refinement fires exactly when the end's minute of the day is not after the start's |
| Validation.SplitClock | lib/validation.ts:40-41 | a matched time splits at ':' into exactly its two digit pairs |
| Validation.RegistrationSchema | lib/validation.ts:3-8 | accepted exactly when the e-mail is valid, sessionId is a UUID and name and department are at least 2 UTF-16 code units long; an accepted body passes unchanged; a rejected one carries each field's issue exactly when that field fails |
| Validation.AstralNamePassesMinimum | lib/validation.ts:6 | a one-character name above U+FFFF (one emoji) is two code units long and gets no name issue |
| Validation.SessionSchema | lib/validation.ts:10-50 | accepted exactly when every field rule (lengths in UTF-16 code units) and both refinements hold; `is_online` defaults to false and `status` to draft; `max_participants` is an integer of at least 1; a rejection carries at least one issue |
| Validation.NoIssuesIff | lib/validation.ts:10-50 | the field checks plus the refinements (run only when the status enum passed) report nothing exactly when the session rules hold |
| Validation.RefinementsIff | lib/validation.ts:30-50 | with well-formed times, the refinements report nothing exactly when a present end time is strictly after the start and an online session has a non-empty link |
| Validation.OnlineWithoutLinkRejected | lib/validation.ts:30-37 | an online session without a link is rejected, with the issue on path `teams_link` |
| Validation.EndNotAfterStartRejected | lib/validation.ts:38-50 | two non-empty times whose arithmetic does not put the end after the start (equal, reversed, or NaN, whether or not they matched the pattern) are rejected, with the issue on path `end_time` once the status enum passed |
| Validation.HeaderSchema | lib/validation.ts:52-56 | accepted exactly when title and subtitle are non-empty; they pass unchanged and `is_active` defaults to false |
| Validation.CancelSessionSchema | lib/validation.ts:58-60 | accepted exactly when the reason is non-empty; otherwise the single issue on `cancellation_reason` |
| Validation.ClockText | lib/validation.ts:18-19 | an hour and a minute in range are written in five characters |
| Utils.FormatTime | lib/utils.ts:18-20 | a time of at least five characters becomes exactly its first five; a shorter one is unchanged |
| Utils.FormatTimeIdempotent | lib/utils.ts:18-20 | formatting a formatted time changes nothing |
| Utils.FormatTimeDropsSeconds | lib/utils.ts:18-20 | "HH:MM:SS" becomes "HH:MM" |
| Utils.FormatDateTime | lib/utils.ts:22-24 | the result is the formatted date, then " om ", then the first five characters of the time (all of it when shorter) |
| Utils.CutoffBoundaryExcluded | lib/utils.ts:30-35 | the instant exactly `cutoffHours` before the start is not within the cutoff, the millisecond before it is |
| Utils.CutoffMonotone | lib/utils.ts:30-35 | within the cutoff for h implies within it for every h' ≤ h |
| Utils.CutoffZero | lib/utils.ts:30-35 | with cutoff 0 the rule is "now is strictly before the start" |
| Utils.CanCancelIsDefaultCutoff | app/bevestiging/page.tsx:42-43 | the confirmation page's rule (start after now + 2 h) agrees with `isWithinCutoff` at its default of 2 hours on every instant |
| Utils.Base36Char | lib/utils.ts:27 | every base-36 digit prints as a character of [0-9a-z] |
| Utils.TokenPart | lib/utils.ts:27 | `toString(36).substring(2, 15)` of one draw has at most 13 characters, all of [0-9a-z]; empty for a draw of 0 |
| Utils.CancellationToken | lib/utils.ts:26-28 | a token has at most 26 characters, all of [0-9a-z]; exactly 26 when both draws have 13 or more fraction digits |
| SessionCard.AvailableSpots | components/public/SessionCard.tsx:14 | places left plus registrations (a missing count read as 0, any other count, negative included, as itself) equal max_participants |
| SessionCard.FullIffCapacityReached | components/public/SessionCard.tsx:14-15 | full exactly when registrations reach capacity, which covers overbooked sessions; without a count, full exactly when max_participants ≤ 0 |
| SessionCard.NeverFullAndAlmostFull | components/public/SessionCard.tsx:15-16 | a session is never both full and almost full |
| SessionCard.CardBadge | components/public/SessionCard.tsx:30 | danger exactly when full, warning exactly when one to three places are left, info exactly when more than three are |
| SessionCard.CardButton | components/public/SessionCard.tsx:60-63 | the button is disabled exactly when full and then reads "Vol", otherwise "Aanmelden"; it links to the session's sign-up page |
| SessionCard.PlacesText | components/public/SessionCard.tsx:53 | the places line starts with the places left, with a minus sign exactly when the session is overbooked |
| SessionCard.PlacesTextWords | components/public/SessionCard.tsx:53 | the line's words are the places left, "van", the capacity, "plekken" and "beschikbaar", each number in its decimal form |
| SessionCard.ShowsAlmostFullNote | components/public/SessionCard.tsx:54-56 | "(Bijna vol)" is shown exactly when one to three places are left |
| SessionCard.TimeLine | components/public/SessionCard.tsx:26-27 | the time line starts with the formatted start time and is only that when no end time is set |
| SessionCard.PlaceText | components/public/SessionCard.tsx:41 | "Online (Teams)" for an online session, its location otherwise |
| Registrations.ActiveCount | app/api/registrations/route.ts:29-33 | the exact count of active rows of a session never exceeds the number of rows |
| Registrations.ActiveMatches | app/api/registrations/route.ts:43-49 | the active rows for one session and address are among that session's active rows |
| Registrations.PublishedSingle | app/api/registrations/route.ts:14-19 | `.single()` on the published-session lookup yields only a published session with the requested id |
| Registrations.RegistrationStore.constructor | app/api/registrations/route.ts:6-106 | a fresh table is empty |
| Registrations.RegistrationStore.Register | app/api/registrations/route.ts:6-106 | the handler, step by step, answers and updates the table exactly as `Admit` says; it keeps one active row per session and address whatever the queries answer, and keeps capacity only when the count query answers |
| Registrations.SchemaFailureFirst | app/api/registrations/route.ts:94-99 | a body the schema rejects gets 400 with the issue list and the table unchanged |
| Registrations.UnknownSessionNotFound | app/api/registrations/route.ts:14-26 | an unknown or unpublished session gives 404 and the table unchanged |
| Registrations.FullBeforeDuplicate | app/api/registrations/route.ts:29-40 | when the count query answers, active rows ≥ max_participants gives 400 "Deze sessie is vol", even for a duplicate, with nothing inserted |
| Registrations.DuplicateRefused | app/api/registrations/route.ts:42-56 | when the duplicate query answers and there is room, an existing active row for the same session and address gives 400 "al ingeschreven" with nothing inserted |
| Registrations.InactiveRowsNeverBlock | app/api/registrations/route.ts:29-56 | adding cancelled or no-show rows never changes the response |
| Registrations.InactiveCounts | app/api/registrations/route.ts:29-49 | rows that are not active change neither the capacity count nor the duplicate count |
| Registrations.SuccessInsertsOneRow | app/api/registrations/route.ts:58-93 | a 201 adds exactly one row at the end, with the submitted session, address, name and department, status active and the generated token, and returns it; earlier rows are unchanged |
| Registrations.FailureLeavesRows | app/api/registrations/route.ts:6-106 | any response other than 201 leaves the table as it was |
| Registrations.CountSeen | app/api/registrations/route.ts:29-35 | the count the capacity test reads: 0 when the count query failed, otherwise the exact active count |
| Registrations.StoreAnswer | app/api/registrations/route.ts:63-77 | the unique constraint answers 23505 for a second active row per session and address; otherwise the store's own answer |
| Registrations.InsertErrorMapping | app/api/registrations/route.ts:75-84 | once both checks pass, a unique violation (23505) gives 400 with the combined message, any other insert error 500 with its own message, a clean insert 201 |
| Registrations.FailedCountOverfills | app/api/registrations/route.ts:29-35 | a failed count query reads as 0, so a full session takes a new address: 201, and the session then has more active rows than places |
| Registrations.FailedLookupMeetsConstraint | app/api/registrations/route.ts:43-82 | a failed duplicate query reads as no row; the second active row then meets the unique constraint and gets 400 with the combined message, nothing inserted |
| Registrations.AdmitPreservesInvariants | app/api/registrations/route.ts:29-73 | sign-ups run one after another keep at most one active row per session and address whatever the queries answer, and active count ≤ max_participants for every published session whenever the count query answers |
| Registrations.AppendKeepsCapacity | app/api/registrations/route.ts:29-40 | appending a row to a published session that has room keeps every session within capacity |
| Registrations.AppendKeepsUnique | app/api/registrations/route.ts:42-56 | appending a row for an address with no active row in that session keeps one active row per address |
| Registrations.MatchesAtMostOne | app/api/registrations/route.ts:42-51 | under the one-active-row invariant the duplicate query finds at most one row, so `.single()` sees every duplicate |
| Registrations.SinglePublishedUnique | app/api/registrations/route.ts:14-19 | a session the single-row lookup returns is the only published session with that id |
| Registrations.MatchesZeroWithout | app/api/registrations/route.ts:42-56 | when the last row is an active sign-up for a session and address, no earlier row is one |
| Headers.Deactivate | app/api/admin/headers/route.ts:47-50 | the bulk update changes only `is_active`, and turns it off on every row but the one with the nil id |
| Headers.DeactivateAll | app/api/admin/headers/route.ts:47-50 | the bulk update keeps the rows and their order and applies `Deactivate` to each |
| Headers.HeaderTable.constructor | app/api/admin/headers/route.ts:33-76 | the table starts with the given rows |
| Headers.HeaderTable.DeactivateOthers | app/api/admin/headers/route.ts:46-51 | the in-place update leaves the array equal to `DeactivateAll` of its old contents |
| Headers.HeaderTable.Append | app/api/admin/headers/route.ts:53-57 | the insert leaves the old rows followed by the new header |
| Headers.HeaderTable.Post | app/api/admin/headers/route.ts:33-76 | the handler, step by step, answers and updates the table exactly as `Create` says |
| Headers.NonAdminUnauthorized | app/api/admin/headers/route.ts:35-38 | a non-admin gets 401 and no header changes |
| Headers.InvalidBodyNoChange | app/api/admin/headers/route.ts:40-69 | a body with an empty title or subtitle gets 400 before any update, so nothing changes |
| Headers.DeactivateAllNoneActive | app/api/admin/headers/route.ts:46-51 | without a nil-id row, no header is active after the bulk update |
| Headers.ActiveHeaderIsOnlyActive | app/api/admin/headers/route.ts:45-63 | when the bulk deactivation applied and no row has the nil id, creating an active header gives 201, one more row, and the new header as the only active one |
| Headers.InactiveHeaderKeepsRows | app/api/admin/headers/route.ts:46-57 | creating an inactive header leaves every existing row as it was and adds one inactive row |
| Headers.CreatePreservesSingleActive | app/api/admin/headers/route.ts:45-63 | when the bulk deactivation applied and no row has the nil id, a successful POST keeps "at most one active header" and adds exactly one row |
| Headers.FailedUpdateKeepsOldActive | app/api/admin/headers/route.ts:45-63 | the bulk update's error is not checked: when it did not apply, an active create still answers 201 and leaves one more active header than before, so at least two |
| Headers.DeactivateTouchesOnlyFlag | app/api/admin/headers/route.ts:47-51 | the bulk update changes no id, title, subtitle or creation time |
| Headers.InsertFailureLeavesNoneActive | app/api/admin/headers/route.ts:46-61 | an insert failing after the bulk update gives 500 with the store's message and leaves no header active |
| Headers.NilIdSurvivesUpdate | app/api/admin/headers/route.ts:50 | an active row carrying the nil id keeps its flag, because the update's filter skips it |
| SessionForm.ParseTime | components/admin/SessionForm.tsx:45-52 | an empty time gives two empty parts; neither part ever holds a ':' |
| SessionForm.ParseTimeReads | components/admin/SessionForm.tsx:45-52 | hours are the text before the first ':'; minutes are the text between the first and second ':', or '' when there is no ':' |
| SessionForm.ParseTimeRoundTrip | components/admin/SessionForm.tsx:45-52 | a time written by the dropdowns as "hours:minutes" is read back by `parseTime` as the same two parts |
| SessionForm.Pad2 | components/admin/SessionForm.tsx:59-60 | left-padding to two characters yields at least two characters and leaves text of two or more characters unchanged |
| SessionForm.ToHHMM | components/admin/SessionForm.tsx:55-64 | no result exactly for blank input or input without ':'; otherwise the first two ':'-parts of the trimmed text, each padded to two characters, joined by ':' |
| SessionForm.ToHHMMClean | components/admin/SessionForm.tsx:55-64 | on text without surrounding white space that holds a ':', the split has at least two parts and the result pads the first two |
| SessionForm.ToHHMMOfClean | components/admin/SessionForm.tsx:55-64 | a clean "h:m" normalises to padded h, ':', padded m |
| SessionForm.ToHHMMOfCleanLonger | components/admin/SessionForm.tsx:55-64 | a clean "h:m:tail" normalises to padded h and m, dropping the tail |
| SessionForm.ToHHMMKeepsClockTime | components/admin/SessionForm.tsx:54-64 | a well-formed "HH:MM" is returned unchanged |
| SessionForm.ToHHMMDropsSeconds | components/admin/SessionForm.tsx:54-64 | a stored "HH:MM:SS" becomes "HH:MM" |
| SessionForm.ToHHMMIdempotent | components/admin/SessionForm.tsx:55-64 | normalising a normalised time changes nothing, provided it does not end in white space |
| SessionForm.ToHHMMOfTrim | components/admin/SessionForm.tsx:56-57 | the result depends only on the trimmed text |
| SessionForm.ToHHMMKeepsInnerSpace | components/admin/SessionForm.tsx:55-64 | a minutes part ending in a space followed by a third part survives one normalisation with its space |
| SessionForm.ToHHMMDropsInnerSpace | components/admin/SessionForm.tsx:55-64 | a second normalisation trims that space and pads the minutes, so the two results differ |
| SessionForm.TwoDigits | components/admin/SessionForm.tsx:87-88 | a month or day padded with '0' is two decimal digits that read back as the number |
| SessionForm.StorageDate | components/admin/SessionForm.tsx:83-90 | the stored date text always contains '-', so it passes the date check of the submit handler |
| SessionForm.StorageDateReadsBack | components/admin/SessionForm.tsx:85-89 | the stored text splits at '-' into pieces that read back as the year, the month and the day; a negative year adds an empty piece before its digits |
| SessionForm.DisplayDate | components/admin/SessionForm.tsx:73-80 | empty exactly when there is no date |
| SessionForm.DisplayDateReadsBack | components/admin/SessionForm.tsx:74-79 | a date's display text splits at '-' into pieces that read back as the day, the month and the year, in that order; a negative year adds an empty piece before its digits |
| SessionForm.DisplayReversesStorage | components/admin/SessionForm.tsx:73-90 | for four-digit years the stored form is ten characters and the DD-MM-YYYY display form is its parts in reverse order |
| SessionForm.ParseDateString | components/admin/SessionForm.tsx:66-71 | the empty string gives no date |
| SessionForm.InitialFormData | components/admin/SessionForm.tsx:17-32 | a new form starts with 10 places, status 'draft' and no date; an edited session's non-zero capacity is kept |
| SessionForm.WithTime | components/admin/SessionForm.tsx:104-110 | sets exactly the chosen time field; date, location, facilitator and the other time are unchanged |
| SessionForm.FirstFailure | components/admin/SessionForm.tsx:119-146 | the reported check fails and every earlier check passes; no check is reported exactly when all checks pass |
| SessionForm.OptionalTrimmed | components/admin/SessionForm.tsx:165-169 | absent exactly for blank text; otherwise the trimmed, non-empty text |
| SessionForm.SubmittedMax | components/admin/SessionForm.tsx:163 | the capacity sent is never 0; an entered non-zero number is sent as it is |
| SessionForm.BuildSubmitData | components/admin/SessionForm.tsx:158-170 | type, date, location, facilitator, online flag and status are sent as entered; the start time is its normalised form when there is one; the end time is the normalised trimmed entry, absent when only white space was entered; capacity is `Number(...) || 10`; the Teams link, facilitator id, audience, notes and instructions are trimmed or absent |
| SessionForm.EndTimeSentWhenEntered | components/admin/SessionForm.tsx:129-162 | once all checks pass, an end time is sent exactly when one was entered, and then in its normalised form |
| SessionForm.IssueField | components/admin/SessionForm.tsx:199 | the field an error is filed under is never empty |
| SessionForm.IssueMessage | components/admin/SessionForm.tsx:200 | the message shown is never empty |
| SessionForm.ErrorMapKeys | components/admin/SessionForm.tsx:197-202 | the error map has a key exactly for each field some server issue names |
| SessionForm.ErrorMapLastWins | components/admin/SessionForm.tsx:197-202 | a field shows the message of the last issue filed under it |
| SessionForm.ReplyErrors | components/admin/SessionForm.tsx:181-220 | a reply with an `errors` list shows the error map; a reply without one shows its non-empty `error`, else the generic message; a network failure, or a body `json()` rejects and `text()` then cannot re-read, shows the retry message; an unreadable reply without a body shows the parse message |
| SessionForm.SessionFormState.constructor | components/admin/SessionForm.tsx:15-34 | starts from the initial fields, with no errors and not submitting |
| SessionForm.SessionFormState.HandleDateChange | components/admin/SessionForm.tsx:83-98 | a picked date is stored in YYYY-MM-DD form and clears only the date error; clearing the picker empties the date and keeps the errors |
| SessionForm.SessionFormState.HandleTimeSelect | components/admin/SessionForm.tsx:101-112 | with both parts chosen, stores "hours:minutes" and clears only that field's error; otherwise empties the field and keeps the errors |
| SessionForm.SessionFormState.SelectHour | components/admin/SessionForm.tsx:274-279 | a chosen hour keeps the current minutes, or "00" when there are none, and clears that field's error; clearing the hour empties the time and keeps the errors; the submitting flag is untouched |
| SessionForm.SessionFormState.SelectMinute | components/admin/SessionForm.tsx:290-295 | a chosen minute keeps the current hours, or "00" when there are none, and clears that field's error; clearing the minute empties the time and keeps the errors; the submitting flag is untouched |
| SessionForm.SessionFormState.HandleSubmit | components/admin/SessionForm.tsx:114-170 | the first failing check leaves only its own error and sends nothing; otherwise errors are cleared, the submitting flag is raised and the request is a PUT to the session's URL when editing, a POST otherwise, carrying the built data |
| SessionForm.SessionFormState.HandleReply | components/admin/SessionForm.tsx:180-220 | navigates exactly on a successful reply; any other reply shows the errors `ReplyErrors` gives and lowers the submitting flag; the fields are kept |
| SessionForm.PickedDatePassesCheck | components/admin/SessionForm.tsx:118-122 | any date chosen in the picker satisfies the submit handler's date check |
| SessionForm.PickedTimePassesCheck | components/admin/SessionForm.tsx:124-132 | any time chosen with both dropdowns satisfies the submit handler's check on that field |
| SessionList.LocationsOf | components/public/SessionList.tsx:19 | one location per session, in list order |
| SessionList.StringLeIsPreorder | components/public/SessionList.tsx:19-38 | the string order used by `sort()` and `localeCompare` is total and transitive |
| SessionList.LocationsSortedDistinct | components/public/SessionList.tsx:17-21 | with the filter hidden there are no choices; with it shown the choices are strictly ascending, hence without repeats, and are exactly the sessions' locations |
| SessionList.LocationsEmptyIff | components/public/SessionList.tsx:17-21 | there are no location choices exactly when the filter is hidden or there is no session |
| SessionList.FilterByLocation | components/public/SessionList.tsx:23-26 | every session when the filter is hidden or no location is chosen; otherwise exactly the sessions at the chosen location, as many as there are |
| SessionList.FilterByLocationKeepsOrder | components/public/SessionList.tsx:23-26 | the location filter keeps list order: it distributes over concatenation |
| SessionList.ComparatorIsPreorder | components/public/SessionList.tsx:28-41 | each of the three sort orders is total and transitive |
| SessionList.SortedSessionsOrdered | components/public/SessionList.tsx:28-41 | the sorted list is a permutation of the filtered list, ordered by start instant, by start time or by location as chosen |
| SessionList.SortedInputUnchanged | components/public/SessionList.tsx:28-41 | a list already in the chosen order is shown in that same order, ties included |
| SessionList.View | components/public/SessionList.tsx:43-99 | no sessions shows the empty-state text; cards are shown exactly when the filter leaves a session, and they are the filtered sessions; otherwise the no-match text naming the chosen location, or the empty-state text when none is chosen |
| SessionList.FilterOffShowsCards | components/public/SessionList.tsx:81-99 | with the filter hidden, a non-empty list always shows cards, whatever location was chosen before |
| SessionTable.Filtered | components/admin/SessionTable.tsx:19-27 | a session is kept exactly when the type filter is "all" or its joined type name equals it, and the status filter is "all" or its status equals it |
| SessionTable.AllFiltersKeepEverything | components/admin/SessionTable.tsx:16-27 | with both filters on "all" the table lists every session, in order |
| SessionTable.UntypedHiddenByTypeFilter | components/admin/SessionTable.tsx:20-22 | a session without a joined type is hidden as soon as a type is chosen |
| SessionTable.FilteredKeepsOrder | components/admin/SessionTable.tsx:19-27 | the filter keeps list order: it distributes over concatenation |
| SessionTable.StatusBadge | components/admin/SessionTable.tsx:29-40 | published, draft and cancelled get their Dutch text and colour; any other status is shown as it is with the default colour |
| SessionTable.StoredStatusesTranslated | components/admin/SessionTable.tsx:29-40 | two different stored statuses get two different badge texts, each differing from the stored value |
| SessionTable.View | components/admin/SessionTable.tsx:50-58 | the no-sessions card appears exactly when the unfiltered list is empty; otherwise the rows are the filtered sessions |
| SessionTable.CountText | components/admin/SessionTable.tsx:132 | the capacity column shows the registration count, 0 when it is missing, over max_participants |
| Labels.TypeLabel | components/admin/SessionTable.tsx:42-48 | the three known type names get their Dutch label; a missing or empty name reads "Onbekend"; any other name is shown as it is |
| Labels.KnownLabelsDistinct | components/admin/SessionTable.tsx:42-48 | the three known types get three different labels, none of them "Onbekend" |
| Lists.Filter | components/admin/SessionTable.tsx:19-27 | the kept elements are exactly the input's elements that satisfy the predicate, and there are no more of them than in the input |
| Lists.FilterConcat | components/admin/SessionTable.tsx:19-27 | filtering a concatenation filters each part and concatenates the results |
| Lists.FilterIdempotent | components/admin/SessionTable.tsx:19-27 | filtering twice by the same predicate is filtering once |
| Lists.FilterAll | components/admin/SessionTable.tsx:19-27 | a filter that keeps every element returns its input |
| Lists.FilterSameVerdict | components/admin/SessionTable.tsx:19-27 | two predicates that agree on every element filter alike |
| Lists.AnyOfIff | scripts/check-env.js:23-41 | `some` holds exactly when an element satisfies the predicate |
| Lists.GatherIncludes | scripts/verify-env-format.js:25-73 | everything pushed while visiting an element ends up in the collection |
| Lists.CountWhere | components/public/SessionList.tsx:25 | the number of matching elements is at most the length |
| Lists.FilterLength | components/public/SessionList.tsx:25 | a filter keeps as many elements as satisfy its predicate |
| Lists.Distinct | components/public/SessionList.tsx:19 | the distinct elements are the input's elements, without repeats |
| Lists.PermutationKeepsNoDuplicates | components/public/SessionList.tsx:19 | reordering a sequence without repeats leaves it without repeats |
| Sorting.Insert | components/public/SessionList.tsx:28 | inserting adds exactly the one element |
| Sorting.SortBy | components/public/SessionList.tsx:28 | the sorted copy is a permutation of the input |
| Sorting.InsertSorted | components/public/SessionList.tsx:28 | inserting into a sorted list keeps it sorted, for a total transitive comparator |
| Sorting.SortBySorted | components/public/SessionList.tsx:28 | the sorted copy is ordered by any total transitive comparator |
| Sorting.SortBySortedInput | components/public/SessionList.tsx:28 | an input already in order comes back unchanged, ties included, as a stable sort does |
| Counting.Tally | app/admin/sessies/page.tsx:34-37 | the counts have a key exactly for each key seen, and each key's count is its number of occurrences |
| Counting.CountByKey | app/admin/sessies/page.tsx:34-37 | the fold with one increment per key yields the tally of the keys |
| Counting.SumOverIncrement | app/admin/page.tsx:47-51 | adding one to a key that occurs once among the distinct keys adds one to the sum of the counts |
| Counting.TallySum | app/admin/page.tsx:47-51 | the counts over all distinct keys add up to the number of keys |
| SessionCounts.SessionIds | app/admin/sessies/page.tsx:24 | one id per session, in order |
| SessionCounts.SessionIdsOfRows | app/admin/sessies/page.tsx:34-35 | one session id per returned row, in order |
| SessionCounts.LoadCounts | app/admin/sessies/page.tsx:24-38 | the fold yields the counts of the returned rows, and nothing when there is no session or the query returns no data |
| SessionCounts.TallyOfActiveRows | app/admin/sessies/page.tsx:28-37 | for a listed session, the rows the count query returns hold its id as often as it has active registrations |
| SessionCounts.CountsAreActiveRegistrations | app/admin/sessies/page.tsx:27-38 | the count shown for a listed session is its number of active registrations, the same number the sign-up endpoint checks capacity against |
| SessionCounts.CountsOnlyForListedSessions | app/admin/sessies/page.tsx:24-38 | only listed sessions get a count; a failed query and an empty list count nothing |
| SessionCounts.WithCounts | app/admin/sessies/page.tsx:40-43 | every session, in order and unchanged, paired with its count, 0 when it has none |
| SessionsPage.Load | app/admin/sessies/page.tsx:14-43 | the loaded list is the page's list of sessions with their counts |
| SessionsPage.PageShowsActiveCounts | app/admin/sessies/page.tsx:14-43 | the list has the fetched sessions in order, each unchanged and paired with its number of active registrations |
| SessionsPage.FailedCountQueryShowsZero | app/admin/sessies/page.tsx:34-43 | when the count query fails every count is 0; without sessions the list is empty |
| Dashboard.ErrorMessage | app/admin/page.tsx:93 | the message shown is the first non-empty message of the four queries, in query order |
| Dashboard.TypeKey | app/admin/page.tsx:48 | the key is never empty: the joined type name when there is one, else 'unknown' |
| Dashboard.TypeKeys | app/admin/page.tsx:47-48 | one key per registration, in order |
| Dashboard.TypeCounts | app/admin/page.tsx:47-51 | the fold yields the tally of the registrations' type keys |
| Dashboard.TypeCountsSumToActive | app/admin/page.tsx:22-51 | the per-type counts add up to the number of active registrations |
| Dashboard.HighOccupancyThreshold | app/admin/page.tsx:83-87 | for a positive capacity a session is highly booked exactly when five times its count exceeds four times its capacity; exactly 80% is not |
| Dashboard.HighOccupancyMonotone | app/admin/page.tsx:83-87 | more registrations never take a session off the high-occupancy list |
| Dashboard.Load | app/admin/page.tsx:11-121 | the loaded view is the page's view of the store |
| Dashboard.ErrorViews | app/admin/page.tsx:89-121 | the schema view appears exactly when a totals query reports a missing table; the statistics appear exactly when no query failed |
| Dashboard.HighOccupancyListed | app/admin/page.tsx:53-87 | the high-occupancy list holds exactly the published sessions from today on that are more than 80% booked by their active registrations |
| Dashboard.HighOccupancyKeepsOrder | app/admin/page.tsx:83-87 | the list keeps the order of the upcoming sessions |
| Dashboard.FailedCountQueryListsNoBookedSession | app/admin/page.tsx:70-87 | when the count query fails every count reads 0, which is more than 80% of no capacity, so the high-occupancy list is empty |
| RegistrationTable.Filtered | components/admin/RegistrationTable.tsx:22-31 | a registration is kept exactly when the type filter is "all", its session's type name is unknown or equals the filter, and the status filter is "all" or equals its status |
| RegistrationTable.AllFiltersKeepEverything | components/admin/RegistrationTable.tsx:18-31 | with both filters on "all" every registration is listed, in order |
| RegistrationTable.UntypedPassesTypeFilter | components/admin/RegistrationTable.tsx:23-26 | a registration whose session type is unknown passes every type filter |
| RegistrationTable.FilteredKeepsOrder | components/admin/RegistrationTable.tsx:22-31 | the filter keeps list order: it distributes over concatenation |
| RegistrationTable.StatusBadge | components/admin/RegistrationTable.tsx:57-68 | active, cancelled and no_show get their Dutch text and colour; any other status is shown as it is with the default colour |
| RegistrationTable.StoredStatusesColoured | components/admin/RegistrationTable.tsx:57-68 | the three stored statuses get three different colours, none of them the default |
| RegistrationTable.ShowsNoneFound | components/admin/RegistrationTable.tsx:183-187 | "Geen aanmeldingen gevonden." shows exactly when the filters keep no registration |
| RegistrationTable.EmailCell | components/admin/RegistrationTable.tsx:164 | the e-mail column shows the address, or "-" when it is empty |
| AdminRegistrations.List | app/api/admin/registrations/route.ts:5-67 | a non-admin gets 401; a failing query gives its message; otherwise the fetched rows, narrowed to those whose joined type name equals the type parameter when one is given |
| AdminRegistrations.LookupIgnored | app/api/admin/registrations/route.ts:38-50 | the conversation-type lookup has no effect on the answer |
| AdminRegistrations.TypeFilterExact | app/api/admin/registrations/route.ts:58-65 | with a type parameter, the answer is exactly the fetched rows whose joined type name equals it; rows without a type are left out |
| AdminRegistrations.TypeFilterKeepsOrder | app/api/admin/registrations/route.ts:58-65 | the type filter keeps the fetched order: it distributes over concatenation |
| RegistrationQueries.NewestFirstIsPreorder | app/api/admin/registrations/route.ts:28 | ordering by creation time, newest first, is total and transitive |
| RegistrationQueries.FetchSpec | app/api/admin/registrations/route.ts:19-52 | the query returns exactly the rows equal on each given parameter, the most recently created first |
| SessionQueries.Today | app/inloopgesprek/page.tsx:38 | today's date is the part of the ISO instant before the first 'T' |
| SessionQueries.DateThenTimeIsPreorder | app/inloopgesprek/page.tsx:39-40 | ordering by date, then by start time, is total and transitive |
| SessionQueries.UpcomingOfTypeMembers | app/inloopgesprek/page.tsx:30-38 | the answer holds exactly the published sessions of the type dated today or later |
| SessionQueries.UpcomingOfTypeOrdered | app/inloopgesprek/page.tsx:39-40 | the answer is ordered by date, and by start time within a date |
| SessionQueries.SingleByName | app/inloopgesprek/page.tsx:13-17 | a type is found exactly when one row has the name, and it is that row |
| InloopPage.Load | app/inloopgesprek/page.tsx:9-62 | the loaded view is the page's view of the store |
| InloopPage.MissingTypeNotFound | app/inloopgesprek/page.tsx:13-27 | without exactly one type row named "inloopgesprek" the page shows the not-found text, whatever the sessions are |
| InloopPage.ListedSessions | app/inloopgesprek/page.tsx:29-62 | with the type found, the list holds exactly its published sessions dated today or later, in date order, each with its number of active registrations |
| ExportCsv.Cells | app/api/admin/export/route.ts:55-66 | ten cells per registration, one per header: the rendered creation time, the type name or "", the session's date, start time, location ("Online (Teams)" when online) and facilitator, all "" without a joined session, and e-mail, name, department and status as stored |
| ExportCsv.Quote | app/api/admin/export/route.ts:70 | a field is the cell between two double quotes, unchanged |
| ExportCsv.QuoteAll | app/api/admin/export/route.ts:70 | every cell of a row is quoted, in order |
| ExportCsv.Lines | app/api/admin/export/route.ts:68-71 | one record per registration, in order |
| ExportCsv.HeaderLineFields | app/api/admin/export/route.ts:42-69 | the header line splits back at ',' into the ten column names, and holds no double quote and no line feed |
| ExportCsv.HeadersPlain | app/api/admin/export/route.ts:42-53 | no column name holds a comma, a double quote or a line feed |
| ExportCsv.JoinNoChar | app/api/admin/export/route.ts:68-71 | joining pieces without a character, by a different separator, gives text without that character |
| ExportCsv.LineHasNoLineFeed | app/api/admin/export/route.ts:70 | a record whose cells hold no line feed holds none itself |
| ExportCsv.LinesOfContent | app/api/admin/export/route.ts:68-71 | when no cell holds a line feed, splitting the file at line feeds gives the header line and then exactly one record per registration, in order |
| ExportCsv.SplitLines | app/api/admin/export/route.ts:68-71 | lines without a line feed, joined by line feeds, split back into themselves |
| ExportCsv.UnescapedQuote | app/api/admin/export/route.ts:70 | a cell with one double quote is written with that quote undoubled, so the field breaks rule 7 of section 2 of RFC 4180 |
| ExportCsv.QuoteAfterPlainPrefix | app/api/admin/export/route.ts:70 | a prefix without double quotes does not affect whether quotes are doubled |
| ExportCsv.RecordsSeparatedByLineFeed | app/api/admin/export/route.ts:68-71 | records are separated by a bare line feed and the last has none, unlike rules 1 and 2 of section 2 of RFC 4180 |
| ExportCsv.Export | app/api/admin/export/route.ts:6-79 | a non-admin gets 401; a failing query gives its message; otherwise the CSV branch is taken exactly when the format is "csv", and its file holds the fetched registrations, newest first |
| ExportCsv.EmbeddedLineFeedSplitsRecord | app/api/admin/export/route.ts:60-70 | a line feed in a cell is kept inside the cell's quotes (which rule 6 of section 2 of RFC 4180 allows), so splitting the file at line feeds no longer yields one line per registration |
| ExportCsv.JoinContains | app/api/admin/export/route.ts:70 | every character of a cell appears in the joined record |
| ExportCsv.LineKeepsLineFeed | app/api/admin/export/route.ts:60-70 | a line feed in the e-mail cell is a line feed in the record |
| ExportCsv.SplitTwoLines | app/api/admin/export/route.ts:68-71 | two lines joined by a line feed, the second holding one itself, split into more than two parts |
| Upload.Extension | app/api/admin/colleagues/upload/route.ts:59 | the extension holds no '.', is a suffix of the name, is the whole name when it has no '.', and is otherwise preceded by a '.' |
| Upload.StoragePath | app/api/admin/colleagues/upload/route.ts:58-61 | the path lies under "colleagues/" and ends in '.' followed by the file's extension |
| Upload.Upload | app/api/admin/colleagues/upload/route.ts:5-95 | no user gives 401; no file, a type outside JPEG, JPG, PNG and WebP, or more than 5 MiB gives 400 with its message, checked in that order; a missing storage URL or service key gives 500; a 200 answer only follows when every check passed and the file was stored |
| Upload.SizeBoundary | app/api/admin/colleagues/upload/route.ts:31-38 | a file of exactly 5 MiB passes the size check; one byte more is refused |
| Upload.StoredAnswersPath | app/api/admin/colleagues/upload/route.ts:87-95 | a stored file answers 200 with the stored path and that path's public URL |
| Upload.StorageErrors | app/api/admin/colleagues/upload/route.ts:75-85 | a storage error answers 500, with the bucket hint when the message mentions a missing bucket and with the message itself otherwise |
| RequestModal.TextsDiffer | components/public/RequestModal.tsx:14-15 | the standard and the spelvorm invitation texts differ |
| RequestModal.DefaultMessage | components/public/RequestModal.tsx:18 | the spelvorm text exactly for a mail-only modal, the standard text exactly otherwise |
| RequestModal.SignOff | components/public/RequestModal.tsx:46-50 | with a name, the sign-off puts it on its own line after the greeting; without one, the greeting alone |
| RequestModal.EmailBodyShape | components/public/RequestModal.tsx:44-50 | the body opens with the greeting to the colleague, carries the trimmed message right after it, and ends with the visitor's name when one was given |
| RequestModal.QueryFields | components/public/RequestModal.tsx:34 | with encoded values free of '&' and '?', the query has no '?' and splits at '&' into the subject and body fields |
| RequestModal.MailtoLinkFields | components/public/RequestModal.tsx:27-35 | for an address without '?', the link splits at '?' into "mailto:" plus the address and the query, the query splits at '&' into exactly the subject and body fields, and both encoded values are header values as section 2 of RFC 6068 defines them |
| RequestModal.LinkSplits | components/public/RequestModal.tsx:34 | over any field values free of '?' and '&', the link splits into its address part and its two fields |
| RequestModal.ComposeLink | components/public/RequestModal.tsx:43-57 | the body built line by line gives the link over the e-mail body of the colleague's name, the message and the visitor's name |
| RequestModal.RequestModalState.constructor | components/public/RequestModal.tsx:17-23 | opens with an empty name, the default message for the modal's kind, no error, not submitting and no success |
| RequestModal.RequestModalState.HandleSubmit | components/public/RequestModal.tsx:37-89 | opens the link built from the colleague and the current texts; sends a tracking request exactly when the modal is not mail-only, with the colleague id, the name when given and the trimmed message; shows success without an error |
| RequestModal.RequestModalState.AfterSuccess | components/public/RequestModal.tsx:90-95 | the delayed step closes the modal, clears the success state and the name, and restores the default message |
| RequestModal.RequestModalState.HandleClose | components/public/RequestModal.tsx:102-110 | ignored while submitting; otherwise closes and resets error, success, name and message |
| UriComponent.HexDigit | components/public/RequestModal.tsx:32-33 | a hex digit is an unreserved character |
| UriComponent.HexDigitValue | components/public/RequestModal.tsx:32-33 | each hex digit reads back as the value it was written for |
| UriComponent.Utf8 | components/public/RequestModal.tsx:32-33 | one to four bytes, each below 256; a single byte, equal to the code point, exactly for ASCII |
| UriComponent.PercentByte | components/public/RequestModal.tsx:32-33 | a byte becomes '%' and two hex digits that read back as the byte |
| UriComponent.PercentBytes | components/public/RequestModal.tsx:32-33 | three characters per byte, each '%' or unreserved |
| UriComponent.EncodeChar | components/public/RequestModal.tsx:32-33 | an unreserved character is kept as it is; every output character is '%' or unreserved |
| UriComponent.Encode | components/public/RequestModal.tsx:32-33 | only unreserved characters and '%' come out |
| UriComponent.EncodedHasNoDelimiters | components/public/RequestModal.tsx:32-34 | no '&', '=', '?', '#' or space survives encoding, so the encoded values cannot break the link's structure |
| UriComponent.EncodedCharNotDelimiter | components/public/RequestModal.tsx:32-34 | '%' and the unreserved characters are not URI delimiters |
| UriComponent.DecodeEncodeAscii | components/public/RequestModal.tsx:32-33 | decoding the encoding of ASCII text gives the text back |
| UriComponent.DecodeEncodedChar | components/public/RequestModal.tsx:32-33 | decoding one encoded ASCII character gives it back and continues after its encoding |
| UriComponent.DecodeEscapedChar | components/public/RequestModal.tsx:32-33 | the same for an ASCII character that is escaped |
| UriComponent.HfvalueConcat | components/public/RequestModal.tsx:32-34 | two RFC 6068 header values concatenated form one |
| UriComponent.EscapeThenHfvalue | components/public/RequestModal.tsx:32-34 | a well-formed escape in front of a header value keeps it a header value |
| UriComponent.PlainThenHfvalue | components/public/RequestModal.tsx:32-34 | a plain character in front of a header value keeps it a header value |
| UriComponent.PercentBytesHfvalue | components/public/RequestModal.tsx:32-34 | escaped bytes form a header value |
| UriComponent.EncodeIsHfvalue | components/public/RequestModal.tsx:32-34 | any encoded text is a well-formed RFC 6068 header value |
| VerifyEnvFormat.KeysDistinct | scripts/verify-env-format.js:49-67 | the three required variable names are pairwise different |
| VerifyEnvFormat.Issue.Text | scripts/verify-env-format.js:35-70 | every message starts with "Line n: " for its own line number |
| VerifyEnvFormat.SkippedLineIsSilent | scripts/verify-env-format.js:28-31 | a blank or comment line gives no issue |
| VerifyEnvFormat.MissingEqualsOnly | scripts/verify-env-format.js:33-37 | any other line without '=' gives exactly the missing-sign issue, with its line number |
| VerifyEnvFormat.NonEntryAssignsNothing | scripts/verify-env-format.js:28-37 | a blank line, a comment or a line without '=' assigns no variable |
| VerifyEnvFormat.EntryLineIssues | scripts/verify-env-format.js:39-72 | a line with '=' gets the spacing issue when spaced, then the issues of its value under its trimmed key |
| VerifyEnvFormat.CheckLine | scripts/verify-env-format.js:25-73 | the callback pushes exactly the line's issues and notes exactly the required variables the line assigns |
| VerifyEnvFormat.CheckValue | scripts/verify-env-format.js:48-72 | the value checks push the issues of the value under its key and note which required variable the key is |
| VerifyEnvFormat.StepLines | scripts/verify-env-format.js:25-73 | one more line appends its issues to the file's issues and adds the variables it assigns |
| VerifyEnvFormat.CheckFile | scripts/verify-env-format.js:17-85 | the line-by-line check of a file's content yields that content's report |
| VerifyEnvFormat.CheckEnvFile | scripts/verify-env-format.js:11-90 | an existing file yields its content's report, a missing one the not-found report |
| VerifyEnvFormat.VerifyEnvFiles | scripts/verify-env-format.js:7-97 | one report per file, in order, each the report of that file; exit code 1 exactly when no file exists, 0 otherwise |
| VerifyEnvFormat.ReportsStep | scripts/verify-env-format.js:10-91 | appending the next file's report keeps every report matching its file |
| VerifyEnvFormatProperties.TrimUnchangedIff | scripts/verify-env-format.js:40-44 | a key that does not start with white space equals its trim exactly when it does not end with white space |
| VerifyEnvFormatProperties.SpacingIff | scripts/verify-env-format.js:43-46 | the spacing issue is raised exactly when white space stands right before the first '=' or a space right after it |
| VerifyEnvFormatProperties.UrlEntryIssues | scripts/verify-env-format.js:49-56 | a URL entry is reported as empty exactly when its value is empty and as not https exactly when it is non-empty without "https://", and gets no other issue than these and spacing |
| VerifyEnvFormatProperties.AnonEntryIssues | scripts/verify-env-format.js:58-65 | an anon-key entry is reported as empty exactly when its value is empty and as too short, quoting its length, exactly when it is 1 to 99 UTF-16 code units long |
| VerifyEnvFormatProperties.OtherEntryIssues | scripts/verify-env-format.js:43-72 | an entry for any other variable gets at most the spacing issue |
| VerifyEnvFormatProperties.IssueLineNumbers | scripts/verify-env-format.js:25-73 | every issue of a file carries the number of one of its lines |
| VerifyEnvFormatProperties.LineIssuesNumbered | scripts/verify-env-format.js:25-73 | every issue of a line carries that line's number |
| VerifyEnvFormatProperties.MissingEqualsNumbered | scripts/verify-env-format.js:33-37 | the missing-sign issue carries its line's number |
| VerifyEnvFormatProperties.SingleIssueNumbered | scripts/verify-env-format.js:35 | a lone missing-sign issue for line n carries n |
| VerifyEnvFormatProperties.EntryLineNumbered | scripts/verify-env-format.js:39-72 | the issues of an entry line carry that line's number |
| VerifyEnvFormatProperties.EntryIssuesNumbered | scripts/verify-env-format.js:43-72 | the issues of an entry carry its line number |
| VerifyEnvFormatProperties.LineIssuesIncluded | scripts/verify-env-format.js:25-73 | each line's issues are among the file's issues |
| VerifyEnvFormatProperties.FoundIff | scripts/verify-env-format.js:49-59 | a variable is found exactly when some line assigns it |
| VerifyEnvFormatProperties.LooksCorrectIff | scripts/verify-env-format.js:80-85 | "Format looks correct" is reported exactly for a file with no issue in which both the URL and the anon key are assigned |
| VerifyEnvFormatProperties.MissingEqualsRulesOutCorrect | scripts/verify-env-format.js:33-85 | a line without '=' puts its issue in the report and rules out "Format looks correct" |
| VerifyEnvFormatProperties.MissingEqualsInIssues | scripts/verify-env-format.js:33-37 | a line without '=' puts the missing-sign issue for its number among the file's issues |
| CheckEnv.Display | scripts/check-env.js:28-31 | "(empty)" for an empty value, the value itself up to 30 characters, else its first 30 characters followed by "..." |
| CheckEnv.DisplayHidesTail | scripts/check-env.js:29-31 | two long values that agree on their first 30 characters are displayed alike: nothing after them is shown |
| CheckEnv.LineOutput | scripts/check-env.js:23-41 | a line prints at most one line, and nothing exactly when it is blank or neither a comment nor an entry |
| CheckEnv.Check | scripts/check-env.js:9-52 | the loop yields the file's outcome and the exit code belonging to it |
| CheckEnv.ExitZeroIff | scripts/check-env.js:9-52 | the script exits 0 exactly when the file exists and has an entry line for each of the URL and the anon key |
| CheckEnv.FlagIff | scripts/check-env.js:35-36 | a flag is set exactly when some line is an entry for its key |
| CheckEnv.EmptyKeyIgnored | scripts/check-env.js:26-27 | a line starting with '=' has no key: it prints nothing and sets no flag |
| CheckEnv.ListedLineShown | scripts/check-env.js:33 | an entry line is printed as its trimmed key, " = " and its displayed value |
| SupabaseEnvLoader.StripQuotes | scripts/test-supabase.js:14 | at most one quote goes from each end; a value without surrounding quotes is unchanged |
| SupabaseEnvLoader.StripTrailing | scripts/test-supabase.js:14 | a trailing quote is dropped, anything else is unchanged |
| SupabaseEnvLoader.StripQuotesOfQuoted | scripts/test-supabase.js:14 | a value wrapped in quotes of either kind, matching or not, comes back bare |
| SupabaseEnvLoader.StripQuotesOnlyOnce | scripts/test-supabase.js:14 | doubled quotes lose only their outer pair |
| SupabaseEnvLoader.StripQuotesOneSided | scripts/test-supabase.js:14 | a lone leading quote is dropped all the same |
| SupabaseEnvLoader.ApplyEffect | scripts/test-supabase.js:10-17 | an entry line sets its own key to its unquoted value; every other key keeps what it had |
| SupabaseEnvLoader.LastEntryWins | scripts/test-supabase.js:9-18 | the last entry for a key decides its value |
| SupabaseEnvLoader.UntouchedKeys | scripts/test-supabase.js:9-18 | a key no line sets keeps its value, or stays unset |
| SupabaseEnvLoader.AssignLine | scripts/test-supabase.js:9-18 | the callback applies one line to the environment |
| SupabaseEnvLoader.ProcessEnv.LoadEnvFile | scripts/test-supabase.js:6-19 | a missing file changes nothing; otherwise the variables are those after applying the file's lines in order |
| EnvLine.Lines | scripts/verify-env-format.js:18 | splitting content at line feeds gives at least one line, none holding a line feed |
| EnvLine.KeyValueSplit | scripts/verify-env-format.js:39-41 | the key is the text before the first '=', the value the trimmed text after it, which may hold '='; key, '=' and the joined parts give back the line |
| EnvLine.EntryIff | scripts/check-env.js:25-27 | an entry is a non-empty, non-comment line holding a '=' that is not its first character |
| Text.TrimStart | scripts/verify-env-format.js:26 | drops the leading white space and nothing else |
| Text.TrimEnd | scripts/verify-env-format.js:26 | drops the trailing white space and nothing else |
| Text.Trim | scripts/verify-env-format.js:26 | the result is no longer than the input and neither starts nor ends with white space |
| Text.TrimKeepsNonWhite | scripts/verify-env-format.js:26-34 | trimming keeps every character that is not white space, so a '=' is found before and after trimming alike |
| Text.TrimIdempotent | scripts/verify-env-format.js:26-40 | trimming twice is trimming once |
| Text.TrimEmptyIff | scripts/verify-env-format.js:29 | the trim is empty exactly when the text is all white space |
| Text.Take | scripts/check-env.js:30 | at most the first n characters |
| Text.CodeUnits | lib/validation.ts:6 | JavaScript's `length`: between one and two code units per character |
| Text.CodeUnitsConcat | lib/validation.ts:6 | the length of a concatenation is the sum of the lengths |
| Text.CodeUnitsOfBasic | lib/validation.ts:6 | without characters above U+FFFF, `length` is the number of characters |
| Text.Substring | lib/utils.ts:27 | a slice of the text, with both ends clamped and swapped as JavaScript does |
| Text.PadStart | components/admin/SessionForm.tsx:59-60 | pads with the character on the left up to the length and keeps the text as its suffix |
| Text.FirstIndex | scripts/verify-env-format.js:39 | the position of the first occurrence, or the length when there is none |
| Text.Split | scripts/verify-env-format.js:18-39 | never empty, and no part holds the separator |
| Text.SplitAtSeparator | scripts/verify-env-format.js:39 | splitting at the first separator: the head is the text before it |
| Text.JoinSplit | scripts/verify-env-format.js:39-41 | joining the parts of a split by the separator gives back the text |
| Text.SplitJoin | app/api/admin/export/route.ts:68-71 | splitting a join of separator-free parts gives back the parts |
| Text.SplitFirst | scripts/verify-env-format.js:39-41 | the first part is the text before the first separator, the rest joined is the text after it, and there is more than one part exactly when the separator occurs |
| Text.SplitLast | app/api/admin/colleagues/upload/route.ts:59 | the last part holds no separator, is a suffix of the text, and is the whole text or preceded by the separator |
| Text.NatToString | components/admin/SessionForm.tsx:86-89 | at least one character, all decimal digits |
| Text.IntToString | components/public/SessionCard.tsx:53 | at least one character, starting with '-' exactly for a negative number |
| Text.NatToStringValue | components/admin/SessionForm.tsx:86-89 | the decimal form of a natural number is all digits and reads back as the number |
| Text.IntToStringValue | components/public/SessionCard.tsx:53 | the decimal form of an integer reads back as it: the digits of a non-negative one, the minus sign and then the digits of a negative one |
| Text.IntToStringChars | components/public/SessionCard.tsx:53 | the decimal form holds no character other than digits and the minus sign |
| Text.LexLeTotal | components/public/SessionList.tsx:35-38 | any two strings are ordered one way or the other |
| Text.LexLeTransitive | components/public/SessionList.tsx:35-38 | the string order is transitive |
| Text.LexLeAntisymmetric | components/public/SessionList.tsx:19 | two strings ordered both ways are equal |
| SupabaseEnvLoader.ProcessEnv.constructor | scripts/test-supabase.js:15 | the environment starts with the variables given |

## Left out

- SessionForm.ToHHMMIdempotent: `toHHMM` is proved idempotent only on results that do not end in white space. It is not idempotent in general. A minutes part that ends in a space and is followed by a third part survives the first pass: "1:2 :3" gives "01:2 ", and a second pass gives "01:02". `SessionForm.ToHHMMKeepsInnerSpace` and `SessionForm.ToHHMMDropsInnerSpace` state this case.
- UriComponent.DecodeEncodeAscii: the decoder and the round trip cover ASCII text only. Multi-byte UTF-8 decoding is not modelled. The encoder itself handles every character, and its output is proved to be an RFC 6068 header value.
- The Supabase client (queries, auth, storage upload and public URLs) is an external service. Its answers are inputs: the tables as sequences, and errors and insert outcomes as values.
- The check-then-insert race of the registration endpoint needs concurrency. Runs are sequential. The database's unique constraint on active rows per session and address is modelled by `Registrations.StoreAnswer`; a unique violation may also arrive as an input, and yields the combined 400 message.
- Registrations.Admit: a failing session lookup is not distinguished from a missing session; the source answers both with the same 404.
- Exceptions that reach a handler's `catch` are the JSON body that cannot be read. The generic 500 answers and the `RequestModal` catch branch are otherwise not modelled.
- Confirmation e-mails and the individual-request e-mail go through an SMTP library, which is not part of this model.
- The Excel branch of the export is a foreign spreadsheet library; only the choice of branch is modelled.
- Locale date rendering (`toLocaleString('nl-NL')` and `formatDate`) and the date parser are function parameters.
- `Date.now()` and `Math.random()` are parameters: the current instant and the random draws.
- The validation library's e-mail and URL checks, and the "today or later" date refinement, are predicates given as parameters. The library's own patterns are not reproduced.
- Strings are sequences of Unicode scalar values, and `length`, `min(n)` and `< 100` are counted in UTF-16 code units (`Text.CodeUnits`). Lone surrogates cannot occur, so the `encodeURIComponent` error they raise is not modelled.
- CheckEnv.Display: the 30-character cut and the `length > 30` test count characters, not UTF-16 code units. The two agree for values whose first 31 characters lie at or below U+FFFF. The model never splits a surrogate pair, where `substring(0, 30)` can.
- Text.Substring and Text.Take: indices count characters, not UTF-16 code units. The model applies them only to times, base-36 digits and the 30-character display cut.
- Validation.RefinementMinutes: `Number` is modelled for blank text and optionally signed decimal digits. Fractions, exponents, radix prefixes and "Infinity" are read as NaN, though JavaScript reads them as numbers.
- Inputs of the wrong JSON type are not modelled: each field is taken to have its declared type.
- `localeCompare` and the default `sort()` order are modelled as code-point order. Locale collation is not modelled. The default `sort()` compares UTF-16 code units, which orders characters from U+E000 to U+FFFF after those above U+FFFF; code-point order puts them before.
- The high-occupancy test uses exact rational arithmetic in place of floating point, with the same answers for a capacity of 0 (any registration is high) and for negative capacities. The rounding of the displayed percentage is not modelled.
- The order of rows the store returns with equal sort keys is taken to be the table's order.
- The request modal renders nothing when closed (`isOpen` false); the model covers only the open modal.
- The outcome of the modal's tracking request is only logged. The model states that it never reaches the visible error, and nothing else about it.
- The colleague list does not pass `mailtoOnly` on to the modal. This prop wiring is not modelled; the modal is modelled for both values.
- Console output of the scripts (emoji, headings, summaries) is not modelled beyond the issue messages, the listed entries and the exit codes. File existence and contents are inputs.
- The network tests of `scripts/test-supabase.js` after the loader, and the second test script, are not part of this model.
- The file-type and size checks that `components/admin/ColleagueForm.tsx` repeats in the browser are modelled once, in the upload route.
- The individual-request route and the colleague and settings CRUD routes are store calls plus error-message mapping, and are not part of this model.
- ICS calendar generation, the cancellation route and the login and debug pages are not part of this model.
