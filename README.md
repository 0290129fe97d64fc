# eGAR core in Dafny

eGAR is the UK Border Force web service where pilots and operators of general aviation file a General
Aviation Report (GAR) for a flight. Each GAR holds an aircraft, a departure and an arrival leg, the people
on board (the captain, the crew and the passengers), flight attributes (the responsible person, customs
and hazardous goods) and supporting files. A GAR is completed step by step through a wizard of pages. It
is checked for completeness, submitted, and then polled until the back office answers. A GAR that has been
submitted can be cancelled up to a configured number of hours before it leaves.

This project models the rules of that wizard, its API mappings and its validation. It proves what those
rules promise. The model has one module per source file:

| module | file | models |
|---|---|---|
| `Common` | — | Option, the nil-or-value slots and the string and digit helpers shared by the modules |
| `Session` | — | the per-wizard session (`SessionModel` class) and the reply a controller gives (`Reply`) |
| `GarModel` | `apps/egar/services/gar.js`, `apps/egar/behaviours/summary.js` | GAR, leg, person and file records as the API returns them, with ISO date-time reading and 'DD MM YYYY' display |
| `SubmitService` | `apps/egar/services/submit.js` | the submission result, its terminal states, and the poll (`Poller` class) as a loop over the answers it reads |
| `GarService` | `apps/egar/services/gar.js` | the GAR states, `getGarStatus`, and the per-GAR `canEdit`/`canCancel`/departure derivation, in place over an array |
| `SubmitBehaviour` | `apps/egar/behaviours/submit.js` | every pre-submission check, the file check, and the decision taken after a submit |
| `Aggregator` | `apps/egar/behaviours/aggregator.js` | the composite behaviour: which sub-behaviours are called, and how their results are merged |
| `SummaryView`, `SummaryActions` | `apps/egar/behaviours/summary.js` | the summary page (`SummaryPage` class, one method per getter), its modes, its error lookup, and the cancel decision |
| `LocationService` | `apps/egar/services/location.js` | the leg body encoder and decoder, with the 1900 and :59 sentinels |
| `LocationBehaviour` | `apps/egar/behaviours/location.js` | the page key, the trim, the autocomplete copy, the conflict rules and the error recovery |
| `Paging` | `apps/egar/behaviours/utils/paging.js` | the page numbers, the links, the item range and the slice of a page |
| `Coordinates` | `apps/egar/fields/utils/regex.js` | the latitude and longitude patterns, as recognisers over characters |
| `TimeComponent` | `mixins/egar-component-time/lib/time.js` | the option defaults, the part splitting, the padding and the joined HH:MM:SS value |
| `PersonService`, `AttributesService`, `AircraftService` | `apps/egar/services/{person,attributes,aircraft}.js` | the mappings between API records and form values, in both directions |
| `BaseController` | `apps/base-controller.js` | the back link and the pruning of stale errors |
| `Helpers` | `mixins/helpers.js` | the template helpers |
| `People`, `ManageGars` | `apps/egar/behaviours/{people,manage-gars}.js` | the parsing of button keys and the resulting route and session changes |
| `StepGraph` | `apps/egar/index.js` | the wizard's steps, their behaviours, and their next steps and forks |
| `Guards` | `apps/egar/behaviours/guards/*.js` | the four access guards |
| `CodeSearch` | `middleware/{iata,icao}.js`, `assets/json/{iata,icao}/index.js` | the airport-code prefix search and the code tables |

The source is asynchronous JavaScript. Its promises are modelled by their outcomes: an `Outcome` is either
`Done` or `Thrown`. API answers are given as values. The translator is a function parameter `tr`, and the
clock is an integer `now` in epoch seconds. Code that updates state in place is modelled as a class with
`modifies` frames. This covers the session, the poll, the summary page, the aggregator's behaviour list and
the GAR list annotation. Pure mappings are modelled as functions with lemmas.

## Model

| member | source | states |
|---|---|---|
| GarModel.FormatDate | apps/egar/services/gar.js:97 | a readable date-time is shown as its own day, month and year digits, in that order, between the separators; one moment cannot read, including one of the right form with a field out of range, is shown as 'Invalid date' |
| GarModel.ParseIso | apps/egar/services/gar.js:97-98 | a date-time moment reads is at least 19 characters, with '-' after the year and 'T' before the time, and its fields are in range: month 1 to 12, a day that exists in that month (29 February only in a leap year), hour 0 to 23, minute and second 0 to 59 (ReadsInRange gives the converse); its fields print back as the digits they were read from (ParseIsoDateRoundTrip, ParseIsoTimeRoundTrip) |
| GarModel.ReadsInRange | apps/egar/services/gar.js:97-98 | a string of the date-time form is read exactly when its month, day, hour, minute and second are in range |
| GarModel.MonthThirteenIsInvalid | apps/egar/services/gar.js:97-98 | a date-time with month 13 is an invalid date |
| GarModel.JuneThirtyFirstIsInvalid | apps/egar/services/gar.js:97-98 | 31 June is an invalid date |
| GarModel.LeapDayRead | apps/egar/services/gar.js:97-98 | 29 February 2020 is read |
| GarModel.CommonYearLeapDayIsInvalid | apps/egar/services/gar.js:97-98 | 29 February 1900 is an invalid date, 1900 not being a leap year |
| GarModel.FormatTime | apps/egar/services/gar.js:98 | a readable date-time is shown as its own hour and minute digits around the separator; one moment cannot read, including one with a field out of range, is shown as 'Invalid date' |
| GarModel.FormatDay | apps/egar/behaviours/summary.js:330-338 | a date of birth or expiry is always shown as something: a readable one as its own day, month and year digits as 'DD MM YYYY', and one moment cannot read, including an impossible date such as 31 June, as 'Invalid date' |
| GarModel.ParseDay | apps/egar/behaviours/summary.js:330-338 | a date moment reads is at least 10 characters, with '-' after the year, and is a real calendar day with its time in range; ParseDayRoundTrip gives its fields back |
| GarModel.ParseIsoDateRoundTrip | apps/egar/services/gar.js:97 | the year, month and day moment reads from a date-time print back, zero-padded, as the digits they were read from |
| GarModel.ParseIsoTimeRoundTrip | apps/egar/services/gar.js:98 | the hour, minute and second moment reads from a date-time print back as the digits they were read from |
| GarModel.ParseDayRoundTrip | apps/egar/behaviours/summary.js:330-338 | a calendar date reads as midnight, and its year, month and day print back as the digits they were read from |
| SubmitService.SubmitUrl | apps/egar/services/submit.js:22-37 | the endpoint is the base URL, '/WF/GARs/', then the GAR's id, then '/Submission/' |
| SubmitService.SubmitUrlInjective | apps/egar/services/submit.js:22-24 | two GARs share a submission endpoint only when they are the same GAR |
| SubmitService.GetSubmissionResult | apps/egar/services/submit.js:48-59 | never fails: a body is passed on unchanged, a 400 becomes null, and exactly the other failures become undefined |
| SubmitService.SubmissionOf | apps/egar/services/submit.js:97 | there is a submission exactly when a body came back holding one |
| SubmitService.TerminalStates | apps/egar/services/submit.js:93-98 | a read with a status ends the poll exactly when that status is SUBMITTED, FAILED or CANCELLED |
| SubmitService.IsTerminal | apps/egar/services/submit.js:93-98 | a read ends the poll when it holds a submission whose status is a final state; TerminalStates names those states |
| SubmitService.FirstTerminalFrom | apps/egar/services/submit.js:94-104 | finds the first read from the given tick on that ends the poll, with no earlier one; finds none only when no such read exists |
| SubmitService.PollResult | apps/egar/services/submit.js:90-142 | the poll never stays pending; it rejects exactly when no read before the timeout is final, and otherwise resolves with the submission of the first final read |
| SubmitService.PollIgnoresLaterReads | apps/egar/services/submit.js:98-101 | once a read has settled the poll, further reads do not change its outcome |
| SubmitService.FirstTerminalPrefix | apps/egar/services/submit.js:98-101 | reads appended after a final read do not move the first final read |
| SubmitService.FirstTerminalIsFirst | apps/egar/services/submit.js:98-101 | a final read preceded only by reads that are not final is the first final read |
| SubmitService.Poller.constructor | apps/egar/services/submit.js:91-109 | starting a poll arms the interval and the timeout, pending, with no read made |
| SubmitService.Poller.Run | apps/egar/services/submit.js:90-142 | the poll settles with the first final read's submission, after exactly that many reads, or rejects after all reads; either way both timers end up cleared |
| GarService.GetGarStatus | apps/egar/services/gar.js:193-199 | the status is the submission's status when it is set and not empty, and DRAFT otherwise, so it is never empty; the display value is the translation of 'gar-states.' followed by that status |
| GarService.CanCancelAt | apps/egar/services/gar.js:109-119 | cancelling is allowed exactly when the reference date-time can be read (its form and its field ranges) and now is no later than that date-time moved by the window, earlier for 'before' and later for 'after' |
| GarService.Annotate | apps/egar/services/gar.js:93-121 | throws exactly for a GAR without a location list, or for a submitted GAR missing the reference leg; otherwise sets the departure as ListedDeparture of the locations, the translated state and canEdit, and changes canCancel only for a submitted GAR, where it is the cancel window's verdict |
| GarService.ListedDeparture | apps/egar/services/gar.js:93-99 | the first location is shown as the departure, with its date as FormatDate with '/' and its time as FormatTime with ':' when it has a date-time and neither otherwise; an empty location list leaves the departure as it was |
| GarService.CancellableNotEditable | apps/egar/services/gar.js:104-120 | a GAR on the list that is given a cancel decision is never editable |
| GarService.CanEdit | apps/egar/services/gar.js:104 | a GAR is editable unless its status is SUBMITTED or CANCELLED; CancellableNotEditable shows a GAR with a cancel decision is not |
| GarService.UpdateUntilNone | apps/egar/services/gar.js:83-121 | the in-place pass of getGars for any step: each entry from the front is replaced by what the step makes of it until the step gives nil, so the pass succeeds exactly when every entry was replaced; the entry that failed and those after it are left as they were |
| GarService.AnnotateGars | apps/egar/services/gar.js:83-121 | annotates the list in place, from the front, up to the first entry that throws (a null entry or a GAR Annotate rejects); it succeeds exactly when every entry is annotated, and leaves the entries from the failing one on unchanged |
| SubmitBehaviour.Compact | apps/egar/behaviours/submit.js:76 | dropping the null entries never lengthens the list, and leaves nothing exactly when every entry was null |
| SubmitBehaviour.CompactConcat | apps/egar/behaviours/submit.js:65-76 | dropping nulls from joined lists is dropping them from each list and joining the results, so the sections' errors keep their order |
| SubmitBehaviour.RequiredFieldError | apps/egar/behaviours/submit.js:104-117 | no error exactly when the section holds the field; otherwise an error for '<section>-<field>' carrying the id, under the section's heading, worded per field when an id is given and per section otherwise |
| SubmitBehaviour.ValidateAircraft | apps/egar/behaviours/submit.js:125-132 | four entries, one per required aircraft field in order, each null exactly when that field is filled in and otherwise an error for 'aircraft-<field>' |
| SubmitBehaviour.ValidateLocation | apps/egar/behaviours/submit.js:141-175 | first the place entry, null exactly when the leg has an ICAO code, an IATA code or both coordinates; then a date error, or a future-date error only when the date is valid; then a time error; no error at all exactly when the leg is complete and in the future |
| SubmitBehaviour.ValidDate | apps/egar/behaviours/submit.js:348-350 | a date passes when a date-time is given and its year is not the 1900 marker; one moment cannot read has no year and passes (UnreadableDateTimePasses); CheckedExactlyWhenShown ties it to the summary |
| SubmitBehaviour.ValidTime | apps/egar/behaviours/submit.js:358-360 | a time passes when a date-time is given and its seconds are not the :59 marker; one moment cannot read has no seconds and passes (UnreadableDateTimePasses); CheckedExactlyWhenShown ties it to the summary |
| SubmitBehaviour.UnreadableDateTimePasses | apps/egar/behaviours/submit.js:348-360 | a date-time moment cannot read passes both the date and the time check, even with the 1900 and :59 marker digits |
| SubmitBehaviour.RenderedPlace | apps/egar/behaviours/submit.js:195-199 | the ICAO code is preferred when present, and a leg with no place of any kind renders to nothing |
| SubmitBehaviour.ValidateLocations | apps/egar/behaviours/submit.js:185-219 | the two legs' errors come first; then an order error, only when there is no leg error and the departure is not before the arrival; then a same-place error; nothing at all exactly when both legs are complete, in order and at different places |
| SubmitBehaviour.ValidateGoods | apps/egar/behaviours/submit.js:229-242 | no error exactly when the hazardous-goods answer is given; otherwise the single hazardous-goods error |
| SubmitBehaviour.ValidateResponsiblePerson | apps/egar/behaviours/submit.js:313-340 | no error exactly when a responsible person is given and, for type OTHER, has a name and a contact number; a missing person gives the single type error; at most two errors, all under the captain heading |
| SubmitBehaviour.PersonChecks | apps/egar/behaviours/submit.js:253-269 | nine entries, the required-field check of each personal detail in order, tagged with the person's uuid |
| SubmitBehaviour.PersonChecksEmpty | apps/egar/behaviours/submit.js:253-269 | one person's checks give no error exactly when every required detail is filled in |
| SubmitBehaviour.ValidateCaptain | apps/egar/behaviours/submit.js:250-275 | with no captain, only the no-captain error; otherwise the captain's nine checks followed by the responsible-person errors; no error exactly when there is a captain with every detail and a complete responsible person |
| SubmitBehaviour.Wrap | apps/egar/behaviours/submit.js:266-271 | a list of errors joined into a list with nulls keeps every error, and dropping nulls gives it back |
| SubmitBehaviour.PeopleErrorsLayout | apps/egar/behaviours/submit.js:292-297 | person k's nine checks sit at positions 9k to 9k+8, so every error names its person by uuid |
| SubmitBehaviour.PeopleErrorsEmpty | apps/egar/behaviours/submit.js:284-301 | a crew or passenger list gives no error exactly when every person in it has every required detail |
| SubmitBehaviour.ValidateCrewOrPassengers | apps/egar/behaviours/submit.js:284-301 | the checks of each crew member or passenger in turn, nine per person |
| SubmitBehaviour.FileMessageKey | apps/egar/behaviours/submit.js:375-390 | a file gets a message key exactly when it is not VIRUS_SCANNED |
| SubmitBehaviour.FindMessage | apps/egar/behaviours/submit.js:391 | finds the first error with the message, and -1 exactly when no error has it |
| SubmitBehaviour.FileErrorsAsWrittenCounterexample | apps/egar/behaviours/submit.js:372-404 | with the message key kept from file to file, a clean file after a quarantined one is reported under the virus error; with the key reset, only the quarantined file is |
| SubmitBehaviour.FileErrorsAsWritten | apps/egar/behaviours/submit.js:370-408 | validateFiles as written, the message key carried from file to file; FileErrorsEmpty and FileErrorsAsWrittenCounterexample state its behaviour |
| SubmitBehaviour.FileErrors | apps/egar/behaviours/submit.js:370-408 | validateFiles with the key reset per file; FileErrorsSound and FileErrorsEmpty state its behaviour |
| SubmitBehaviour.AddFileNew | apps/egar/behaviours/submit.js:394-400 | a file whose message is new opens a new files error holding its uuid, and the list stays well formed |
| SubmitBehaviour.AddFileJoin | apps/egar/behaviours/submit.js:401-402 | a file whose message is already reported adds its uuid to that error, and the list stays well formed |
| SubmitBehaviour.AddFileKeeps | apps/egar/behaviours/submit.js:391-404 | recording a bad file keeps one error per message and adds exactly that file's uuid to the reported ids |
| SubmitBehaviour.FileErrorsSound | apps/egar/behaviours/submit.js:362-408 | the files errors have one error per distinct message, report exactly the uuids of the files that are not VIRUS_SCANNED, and are empty exactly when every file is VIRUS_SCANNED |
| SubmitBehaviour.FileErrorsEmpty | apps/egar/behaviours/submit.js:362-408 | the file check passes exactly when every file is VIRUS_SCANNED, both as written and with the per-file reset |
| SubmitBehaviour.ValidateFiles | apps/egar/behaviours/submit.js:370-408 | no files give no error; otherwise the result is the file-by-file errors with the message key reset for each file, which FileErrorsSound describes |
| SubmitBehaviour.GarValidation | apps/egar/behaviours/submit.js:62-88 | the check fails, as the code throws, exactly when no summary came back or it has no location list |
| SubmitBehaviour.ValidationPassesIffComplete | apps/egar/behaviours/submit.js:57-92 | the pre-submission check finds no error exactly when every section of the GAR is complete |
| SubmitBehaviour.Validate | apps/egar/behaviours/submit.js:57-92 | without submit-gar, goes on; a summary that cannot be checked fails; a clean GAR goes on; a GAR with errors stores them as the garErrors validation list and redirects to the summary; nothing else in the session changes |
| SubmitBehaviour.Attempt | apps/egar/behaviours/submit.js:442-443 | the attempt number is one more than the query's count, and at least 1 |
| SubmitBehaviour.ChoosePlanAsWritten | apps/egar/behaviours/submit.js:450-469 | a DRAFT or FAILED GAR is submitted and every other state is polled again; it never gives up |
| SubmitBehaviour.ChoosePlan | apps/egar/behaviours/submit.js:450-469 | a DRAFT or FAILED GAR is submitted; any other state gives up exactly on the configured last attempt |
| SubmitBehaviour.SettleSubmission | apps/egar/behaviours/submit.js:451-472 | a rejected submit settles as FAILED; giving up settles as TIMEOUT with the timeout reason; it times out exactly when the poll was started and rejected |
| SubmitBehaviour.SubmitReply | apps/egar/behaviours/submit.js:473-487 | goes on exactly for a SUBMITTED result; any other result stores its reason, or the generic failure message, and returns to the summary with e=3; a timed-out poll re-posts to the submit page with the attempt number |
| SubmitBehaviour.AsWrittenRetriesForever | apps/egar/behaviours/submit.js:460-487 | as written, a pending GAR whose polls time out is re-posted on every attempt, the last one included |
| SubmitBehaviour.IntendedRetriesStop | apps/egar/behaviours/submit.js:460-481 | as intended, the last attempt returns to the summary with the timeout reason, whatever the poll does |
| SubmitBehaviour.SaveValues | apps/egar/behaviours/submit.js:437-494 | with submit-gar, the reply and the stored garErrors are those of the plan for the state read, settled by the submit and the poll; with save-as-draft, a redirect to the GAR list; otherwise nothing is sent; only garErrors can change |
| Aggregator.Calls | apps/egar/behaviours/aggregator.js:70-86 | picks out, in declaration order, exactly the sub-behaviours whose own class declares the hook |
| Aggregator.Aggregate | apps/egar/behaviours/aggregator.js:65-97 | throws exactly when no options are given; otherwise the answers of the declaring sub-behaviours in declaration order, or, when none declares the hook, the base controller's answer alone if defaultToBaseFn is set and nothing otherwise |
| Aggregator.FirstError | apps/egar/behaviours/aggregator.js:115 | no error exactly when no answer carries one; otherwise the error of an answer with no error before it |
| Aggregator.FirstErrorIgnoresLater | apps/egar/behaviours/aggregator.js:115-118 | answers after the first error do not change the error passed on |
| Aggregator.FirstErrorOfCalls | apps/egar/behaviours/aggregator.js:105-124 | the error passed on is that of the first declaring sub-behaviour, in declaration order, to answer one; there is none exactly when no declaring sub-behaviour answers one |
| Aggregator.FirstCalledError | apps/egar/behaviours/aggregator.js:203-220 | the first error among the collected answers belongs to a declaring sub-behaviour with no declaring sub-behaviour before it answering an error |
| Aggregator.NoCalledError | apps/egar/behaviours/aggregator.js:254-271 | when no collected answer carries an error, no declaring sub-behaviour answered one |
| Aggregator.Defaults | apps/egar/behaviours/aggregator.js:148 | the keys are those of both records; a key of the first keeps its value and the second fills only the gaps |
| Aggregator.DefaultsDeep | apps/egar/behaviours/aggregator.js:148 | the keys are those of both objects; a key missing from the first takes the second's value; two records under one key merge field by field, first wins; any other key of the first keeps its value |
| Aggregator.MergeFirstWins | apps/egar/behaviours/aggregator.js:144-150 | a merged key is present exactly when some answer has it; a string takes the value of the first answer that has the key; a record takes each field from the first answer whose record has that field |
| Aggregator.MergeFirstOfNothing | apps/egar/behaviours/aggregator.js:145-150 | with no values answered, the merge is the empty object |
| Aggregator.MergeValuesStep | apps/egar/behaviours/aggregator.js:146-150 | each answer with values extends the merge so far by one defaultsDeep, and an answer without values leaves it alone |
| Aggregator.MergeErrorsStep | apps/egar/behaviours/aggregator.js:237-242 | each answer with errors starts the merge when there is none yet and otherwise extends it by one defaultsDeep; an answer without errors leaves it alone |
| Aggregator.AssignLastWins | apps/egar/behaviours/aggregator.js:168-172 | a key is present exactly when some layer has it, with the value of the last layer that does |
| Aggregator.DefaultButtons | apps/egar/behaviours/aggregator.js:176-182 | the continue button, translated, is appended exactly unless the last sub-behaviour sets useDefaultButtons to false |
| Aggregator.ErrorValues | apps/egar/behaviours/aggregator.js:152-153 | the session's stored errorValues are read exactly when the session holds a form under that key |
| Aggregator.AggregatorController.constructor | apps/egar/behaviours/aggregator.js:39-52 | one sub-controller per configured sub-behaviour, in the configured order |
| Aggregator.AggregatorController.HookError | apps/egar/behaviours/aggregator.js:105-124 | configure, process and saveValues pass on no error exactly when no declaring sub-behaviour answers one, and otherwise the first declaring sub-behaviour's error in declaration order |
| Aggregator.AggregatorController.GetValuesHook | apps/egar/behaviours/aggregator.js:132-160 | with form errors on the request, no error and the session's errorValues; otherwise the first error answered and the first-in-wins merge of all values answered, the base controller standing in when no sub-behaviour declares getValues |
| Aggregator.AggregatorController.ValidateHook | apps/egar/behaviours/aggregator.js:228-246 | null exactly when no declaring sub-behaviour answers errors, and otherwise the first-in-wins merge of their errors |
| Aggregator.AggregatorController.LocalsHook | apps/egar/behaviours/aggregator.js:167-185 | throws exactly when there is no sub-behaviour; otherwise the base locals overlaid by each sub-behaviour's locals in turn, with the buttons list (empty when unset) followed by the default button |
| Aggregator.AggregatorController.RenderedBy | apps/egar/behaviours/aggregator.js:193-195 | the last sub-behaviour renders the page; with none, rendering throws |
| Aggregator.LocalsLastWins | apps/egar/behaviours/aggregator.js:167-172 | a local other than buttons is present exactly when the base or some sub-behaviour sets it, and shows the last sub-behaviour's value, or the base's when no sub-behaviour sets it |
| SummaryView.PointString | apps/egar/behaviours/summary.js:170-174 | empty exactly when both coordinates print empty; otherwise 'latitude, longitude', with a missing coordinate printed as nothing |
| SummaryView.Place | apps/egar/behaviours/summary.js:196-238 | the ICAO code when given, else the IATA code, else the point's string, else nothing |
| SummaryView.PlaceAgreesWithCheck | apps/egar/behaviours/summary.js:200-201 | for a leg given by a point whose two coordinates are set and not both empty, the summary prints the same place that the pre-submission check compares |
| SummaryView.ShownDate | apps/egar/behaviours/summary.js:189-228 | no date-time shows no date; a readable one shows no date exactly when its year is the 1900 'no date' marker; an unreadable one, including one with a field out of range, shows 'Invalid date' |
| SummaryView.ShownTime | apps/egar/behaviours/summary.js:189-229 | no date-time shows no time; a readable one shows no time exactly when its seconds are the :59 'no time' marker; an unreadable one, including one with a field out of range, shows 'Invalid date' |
| SummaryView.CheckedExactlyWhenShown | apps/egar/behaviours/submit.js:348-360 | for a given date-time, validateDate passes exactly when the summary shows a date, and validateTime exactly when it shows a time |
| SummaryView.DepartureView | apps/egar/behaviours/summary.js:176-213 | the departure is shown exactly when the location list has a first entry that is not null, and it is that entry |
| SummaryView.ArrivalView | apps/egar/behaviours/summary.js:215-247 | throws exactly without a location list; otherwise the arrival is shown exactly when the last entry is not the first and is not null, and it is that entry |
| SummaryView.ShowAircraft | apps/egar/behaviours/summary.js:142-155 | registration, type and base as given; taxes paid is shown exactly when given, as Yes when truthy and No otherwise |
| SummaryView.ShowHazardous | apps/egar/behaviours/summary.js:347-356 | shown exactly when the attributes give the hazardous answer, as Yes or No |
| SummaryView.Relabel | apps/egar/behaviours/summary.js:313-322 | a responsible person of type CAPTAIN becomes Captain and captain-responsible, one of type OTHER becomes Other and not captain-responsible, any other is left as it was; the name and number stay, and no relabelled person still reads CAPTAIN or OTHER |
| SummaryView.AttributesObject | apps/egar/behaviours/summary.js:157-163 | the attributes object keeps the hazardous answer and the responsible person as the API gives them, with no captain-responsible flag yet |
| SummaryView.RelabelShared | apps/egar/behaviours/summary.js:313-322 | the shared attributes object keeps its hazardous answer, and its responsible person, when there is one, is relabelled |
| SummaryView.RelabelSharedTwice | apps/egar/behaviours/summary.js:313-322 | relabelling the shared object a second time, as each later createPerson call would, changes nothing |
| SummaryView.ShownDay | apps/egar/behaviours/summary.js:330-338 | a date of birth or expiry shows blank exactly when it is not given |
| SummaryView.ShowDetailsSpec | apps/egar/behaviours/summary.js:325-340 | names as given; the gender equal to the given one up to case, with no lower-case first letter; a readable date of birth shown as its own day, month and year digits, and the dates blank exactly when not given; an identity card under its display name and other document types as given; a given nationality by its country name, blank when not given |
| SummaryView.CreatePerson | apps/egar/behaviours/summary.js:312-345 | throws exactly for a person without details; otherwise the shown details, the uuid, number and last flag given, no errors yet, and, exactly when the attributes object holds a responsible person, that person relabelled, the very value the relabelled attributes object then holds |
| SummaryView.CollectSpec | apps/egar/behaviours/summary.js:276-286 | building a list fails exactly when one entry throws, and otherwise keeps every entry in order |
| SummaryView.CollectStep | apps/egar/behaviours/summary.js:283-285 | each person created extends the list by that person, or ends it with a throw |
| SummaryView.CollectNoneStays | apps/egar/behaviours/summary.js:276-286 | once a person throws, the whole listing throws |
| SummaryView.OnlyFinalPersonIsLast | apps/egar/behaviours/summary.js:267-310 | the listing throws exactly when some person has no details; otherwise it has one entry per person, numbered by position, keeping each uuid, and only the final entry is marked last |
| SummaryView.FileViews | apps/egar/behaviours/summary.js:365-384 | one entry per file, in order, with the file's own name and id, its status translated under 'file-states.', no error yet, and marked last exactly when it is the final file |
| SummaryView.SummaryMode | apps/egar/behaviours/summary.js:388-435 | cancel shows cancel and return; view shows only return; edit shows only continue; each keeps its mode name; any other mode is the default 'summary' page |
| SummaryView.SummaryModeConsistent | apps/egar/behaviours/summary.js:388-435 | in every mode, details can be changed exactly when the page continues, a cancel button comes with a return button, and the page offers continue or return but never both |
| SummaryView.ModeButtons | apps/egar/behaviours/summary.js:84-108 | exactly the buttons the mode asks for, each once, in the order cancel, return, continue; each is named by its id and worded by translating 'buttons.<id>' |
| SummaryView.SummaryLocals | apps/egar/behaviours/summary.js:79-111 | the base locals are kept apart from the title, which is the mode's heading or 'GAR summary', and the buttons, which are the mode's buttons and none without a summary |
| SummaryView.SummaryPageHasWayOut | apps/egar/behaviours/summary.js:79-111 | in every mode the page shows a continue or a return button |
| SummaryView.FirstMatch | apps/egar/behaviours/summary.js:545-547 | finds the first error for the field that, when an id is given, lists the id; finds none only when no error matches |
| SummaryView.FindError | apps/egar/behaviours/summary.js:545-549 | the message of the first matching error, and empty when there is none |
| SummaryView.PassengerLookupAsWritten | apps/egar/behaviours/summary.js:512-523 | as written, the passengers' lookups agree with the validation fields except the ninth, 'passenger-document_issuingCountry' |
| SummaryView.PassengerIssueErrorAsWrittenHidden | apps/egar/behaviours/summary.js:520-523 | as written, a passenger's issuing-country error is never shown, whatever the passengers' validation reports |
| SummaryView.MissingDetailShown | apps/egar/behaviours/summary.js:496-525 | with lookups under the validation's own fields, a crew member or passenger with a uuid who lacks a detail sees that detail's message |
| SummaryView.PassengerIssueErrorShown | apps/egar/behaviours/summary.js:510-525 | with the corrected lookup, a passenger with a uuid who lacks the issuing country sees its message |
| SummaryView.PassengerIssueErrorCounterexample | apps/egar/behaviours/summary.js:520-523 | for one passenger 'p1' with no details, the issuing-country message is hidden as written and shown as intended |
| SummaryView.PassengerListingAsWritten | apps/egar/behaviours/summary.js:520-522 | merged through the lookup fields as written, the passenger listing is the corrected one with the issuing-country message blank, whenever no error is filed under the singular field |
| SummaryView.ResponsibleTypeErrorHidden | apps/egar/behaviours/summary.js:491 | the missing responsible-person error, which validation files under 'captain-responsible-person', is never shown beside the captain, whose lookup is 'captain-responsible-person-type' |
| SummaryView.LegErrorProps | apps/egar/behaviours/summary.js:451-473 | throws exactly when a future-date or order error concerns a leg the summary lacks; the date and time errors are the leg's own date and time when such an error concerns it, and the found messages otherwise; the place error is the leg's place when both legs share a place, and the found message otherwise |
| SummaryView.MergeLeg | apps/egar/behaviours/summary.js:451-463 | defined error messages overwrite the leg's and the shown values stay; a missing leg becomes an object of the errors alone |
| SummaryView.WithErrors | apps/egar/behaviours/summary.js:481-494 | the captain keeps everything but gains the found messages; a missing captain becomes an object of messages alone |
| SummaryView.FileWithErrors | apps/egar/behaviours/summary.js:527-533 | a file's name and status are flagged exactly when an error for 'files' lists its id; nothing else about it changes |
| SummaryView.ShowErrors | apps/egar/behaviours/summary.js:63 | the stored errors are shown exactly when the mode is not 'view' |
| SummaryView.SummaryPage.constructor | apps/egar/behaviours/summary.js:122-124 | a new summary holds the GAR's id and has no part defined yet |
| SummaryView.SummaryPage.GetAircraftDetails | apps/egar/behaviours/summary.js:142-155 | the aircraft is marked shown exactly when the GAR has one, and is then set from it; otherwise left as it was |
| SummaryView.SummaryPage.GetAttributes | apps/egar/behaviours/summary.js:157-163 | the attributes are marked shown exactly when the GAR has them, and then are the GAR's own |
| SummaryView.SummaryPage.GetDeparture | apps/egar/behaviours/summary.js:176-213 | the departure is marked shown exactly when the GAR has a first location, and is then set from it |
| SummaryView.SummaryPage.GetArrivals | apps/egar/behaviours/summary.js:215-247 | fails exactly without a location list; otherwise the arrival is marked shown exactly when the last location qualifies, and is then set from it |
| SummaryView.SummaryPage.GetCaptain | apps/egar/behaviours/summary.js:260-265 | fails exactly for a captain without details; a captain is marked shown and created with the responsible person of the stored attributes, and that shared attributes object is relabelled in place, so the captain's responsible person and the summary's are the same value; without a captain nothing changes |
| SummaryView.SummaryPage.GetCrew | apps/egar/behaviours/summary.js:267-288 | fails exactly when a crew member has no details; a non-empty crew is marked shown and listed person by person; otherwise the crew is left as it was |
| SummaryView.SummaryPage.GetPassengers | apps/egar/behaviours/summary.js:290-310 | fails exactly when a passenger has no details; a non-empty passenger list is marked shown and listed person by person; otherwise left as it was |
| SummaryView.SummaryPage.GetPeople | apps/egar/behaviours/summary.js:249-258 | fails exactly when a listed person has no details; without people nothing is shown; otherwise captain, crew and passengers are each marked shown exactly when the GAR lists them, and set from them; a captain relabels the stored attributes in place |
| SummaryView.SummaryPage.GetHazardousGoods | apps/egar/behaviours/summary.js:347-356 | the goods are marked shown exactly when the attributes give the hazardous answer, and are then set from it |
| SummaryView.SummaryPage.GetFiles | apps/egar/behaviours/summary.js:358-386 | without a file list nothing is set; otherwise every file in order, files marked shown exactly when there is one, and pending files flagged exactly when some file is still uploading or awaiting its scan |
| SummaryView.SummaryPage.ListPeople | apps/egar/behaviours/summary.js:274-286 | the listing built in the loop is the one OnlyFinalPersonIsLast describes, or a throw |
| SummaryView.SummaryPage.MergeLegErrors | apps/egar/behaviours/summary.js:451-473 | fails exactly when the departure's or the arrival's merge throws; otherwise both legs carry their merged errors and are marked shown |
| SummaryView.SummaryPage.MergeItemErrors | apps/egar/behaviours/summary.js:443-449 | the aircraft and the goods carry their found messages and are marked shown, and each file is flagged when an error lists it |
| SummaryView.SummaryPage.MergePeopleErrors | apps/egar/behaviours/summary.js:479-525 | the no-captain message is set, the captain carries its twelve messages, and each crew member and passenger carries the messages found for their id (passengers through the corrected lookup, see Left out) |
| SummaryView.SummaryPage.MergeSections | apps/egar/behaviours/summary.js:443-533 | the aircraft, goods, files and people all carry their merged errors |
| SummaryView.SummaryPage.MergeValidation | apps/egar/behaviours/summary.js:439-538 | fails exactly when either leg's merge throws; otherwise the validation list is kept and every part carries its merged errors, with aircraft, legs and goods marked shown |
| SummaryView.SummaryPage.GetSummaryErrors | apps/egar/behaviours/summary.js:437-543 | without stored errors nothing changes; a reason is kept as the page's error and nothing else changes; a validation list fails exactly when either leg's merge throws, and otherwise is kept, with the legs, aircraft, goods, files and people carrying their merged errors (passengers through the corrected lookup, see Left out) |
| SummaryView.SummaryPage.GetSummaryMode | apps/egar/behaviours/summary.js:388-435 | the page takes the headings and buttons of its mode |
| SummaryView.SummaryPage.GetLocations | apps/egar/behaviours/summary.js:165-168 | fails exactly without a location list; the departure and the arrival are set as the two getters say |
| SummaryView.SummaryPage.GetFlight | apps/egar/behaviours/summary.js:126-128 | aircraft, attributes and locations in turn, failing exactly without a location list |
| SummaryView.SummaryPage.GetManifest | apps/egar/behaviours/summary.js:129-131 | people, hazardous goods and files in turn, failing exactly when a listed person has no details; a captain relabels the stored attributes, and then shares its responsible person with them |
| SummaryView.SummaryPage.GetDetails | apps/egar/behaviours/summary.js:124-131 | every getter in turn on an empty summary, failing exactly without a location list or when a listed person has no details; the attributes end as the GAR's, relabelled when the GAR has a captain, and shared with the captain |
| SummaryView.SummaryAttributes | apps/egar/behaviours/summary.js:157-163 | the summary holds attributes exactly when the GAR has them: the GAR's own without a captain, and with a captain a responsible person that no longer reads CAPTAIN or OTHER |
| SummaryView.SummaryPage.Conclude | apps/egar/behaviours/summary.js:132-137 | the page mode is set, the stored errors are merged only when they are shown, and the state is the GAR's translated status |
| SummaryView.SummaryPage.CreateSummary | apps/egar/behaviours/summary.js:121-140 | a new summary filled from the GAR; it fails only where a getter or a leg's error merge throws, and always succeeds on a readable GAR when no validation list is merged; it carries the GAR's id, mode and translated state, the GAR's attributes relabelled when there is a captain, legs as the GAR gives them when no errors are merged, and the stored reason or validation list only when errors are shown |
| SummaryActions.BackLink | apps/egar/behaviours/summary.js:36-48 | the back link is the GAR list exactly when a summary mode is set; it is the supporting-files page exactly when there is no mode and the supporting-files answer is unset; otherwise it is left at its default |
| SummaryActions.StoredErrors | apps/egar/behaviours/summary.js:61 | the stored errors are read exactly when the session holds errors under garErrors, and are then those errors |
| SummaryActions.GetValues | apps/egar/behaviours/summary.js:56-72 | forgets only the summary flag; a failed fetch fails; a built summary carries the GAR's id, the stored mode and the translated state, shows no stored errors in 'view' mode and otherwise keeps a stored reason; a readable GAR without a validation list to merge always gives a summary |
| SummaryActions.ChooseCancelPlanAsWritten | apps/egar/behaviours/summary.js:589-606 | a SUBMITTED GAR is cancelled and every other state is polled again; it never gives up |
| SummaryActions.ChooseCancelPlan | apps/egar/behaviours/summary.js:589-606 | a SUBMITTED GAR is cancelled; any other state gives up exactly on the configured last attempt |
| SummaryActions.SettleCancel | apps/egar/behaviours/summary.js:589-608 | times out exactly when a started poll is rejected; a rejected cancel request with no error leaves no answer, and one with an error passes on its status code; giving up answers TIMEOUT; any other answer is the poll's submission status |
| SummaryActions.CancelReply | apps/egar/behaviours/summary.js:609-630 | returns to the GAR list exactly for a CANCELLED answer; a timeout re-posts to the summary with the attempt number; any other answer stores the cancellation error for a 403 and the generic failure otherwise, with e=1; a missing answer stores the generic failure with e=2 |
| SummaryActions.CancelledOnlyWhenPolled | apps/egar/behaviours/summary.js:589-612 | a GAR is reported cancelled only when a poll, started by an accepted cancel request or a re-poll, saw it CANCELLED |
| SummaryActions.CancelAsWrittenRetriesForever | apps/egar/behaviours/summary.js:597-625 | as written, a GAR that is not SUBMITTED whose polls time out is re-posted on every attempt, the last one included |
| SummaryActions.CancelIntendedRetriesStop | apps/egar/behaviours/summary.js:597-620 | as intended, the last attempt shows the summary with the cancellation-failed reason, whatever the poll does |
| SummaryActions.CancelGar | apps/egar/behaviours/summary.js:577-631 | the reply and the stored garErrors are those of the plan for the state read, settled by the cancel request and the poll; nothing else in the session changes |
| SummaryActions.Process | apps/egar/behaviours/summary.js:557-568 | a change_location sets the summary flag and opens that section; otherwise cancel-gar cancels the GAR; otherwise return goes to the GAR list; otherwise the request goes on with the session unchanged |
| LocationService.LegNumber | apps/egar/services/location.js:106-110 | the departure is looked up as leg 0 and the arrival as leg 1, and no other leg number is used |
| Common.OrNull | apps/egar/services/location.js:186-187 | a value falls back to null unless it is truthy, as the location body posts a typed coordinate and the aircraft body (aircraft.js:81-92) posts each field: kept exactly when it is set and not empty, nil otherwise |
| LocationService.NonEmptyOrNull | apps/egar/services/location.js:171-181 | a code is posted as itself when non-empty and as null otherwise, never left out |
| LocationService.EncodeDatetime | apps/egar/services/location.js:157-162 | a missing date or time is replaced by its sentinel, and no datetime is sent exactly when both parts are missing or equal to their sentinels |
| LocationService.SentinelParts | apps/egar/services/location.js:159-162 | only the two sentinels can make up the sentinel datetime, since it holds a single 'T' |
| LocationService.DecodeDatetime | apps/egar/services/location.js:117-122 | the decoded date is always set and never the sentinel date; a decoded time is never the sentinel time |
| LocationService.DatetimeRoundTrip | apps/egar/services/location.js:117-162 | decoding an encoded datetime gives back the date and the time, with a missing or sentinel part reading back as empty |
| LocationService.BodyOf | apps/egar/services/location.js:156-194 | the datetime is always set; ICAO wins over IATA, which wins over a point; the chosen place is posted (the autocomplete value when its key was posted) and the other two as null; with no place none of the three keys is sent |
| LocationService.GetLocationBody | apps/egar/services/location.js:156-194 | the body built key by key equals BodyOf |
| LocationService.FindLeg | apps/egar/services/location.js:106-112 | the result is the first response whose leg number matches, and it is nil exactly when no response matches |
| LocationService.FormValuesOf | apps/egar/services/location.js:114-143 | no details give no values; the ICAO code is copied; the radio choice is 'iata' exactly when an IATA code is set, and 'lat-long' exactly when there is no IATA code and a coordinate is set; a date is shown exactly when the leg has a datetime, and it is the decoded one |
| LocationService.GetLocationDetails | apps/egar/services/location.js:88-145 | the form values filled in one by one equal FormValuesOf of the first leg with the page's leg number |
| LocationService.LocationRoundTrip | apps/egar/services/location.js:88-194 | posting a leg page and reading that leg back gives the user's date and time, and the chosen place with the radio choice the page shows for it |
| LocationBehaviour.LegName | apps/egar/services/location.js:7-10 | the page key is 'departure' exactly for the departure leg |
| LocationBehaviour.PageKey | apps/egar/behaviours/location.js:26-28 | the page is the departure page exactly when 'departure' is found in the URL after its first character |
| LocationBehaviour.PathPageKey | apps/egar/behaviours/location.js:26-28 | for a path starting with '/', the page is the departure page exactly when the rest of the path contains 'departure' |
| LocationBehaviour.LeadingDepartureIsArrival | apps/egar/behaviours/location.js:27 | a URL that begins with 'departure' is read as the arrival page, because the index must be above 0 |
| LocationBehaviour.PointValue | apps/egar/behaviours/location.js:132 | a point counts as given exactly when the latitude or the longitude is truthy |
| LocationBehaviour.PlaceholderExcludesConflict | apps/egar/behaviours/location.js:141-159 | the ZZZZ placeholder check and the conflicting-places check never both fire |
| LocationBehaviour.LocationRequest.constructor | apps/egar/behaviours/location.js:16-20 | a request holds its URL, whether a form was posted, the body and the form values |
| LocationBehaviour.LocationRequest.Configure | apps/egar/behaviours/location.js:105-115 | with a form, the day, month and year are trimmed (missing parts become ''), and every other body field is unchanged; without a form nothing changes |
| LocationBehaviour.LocationRequest.Process | apps/egar/behaviours/location.js:80-97 | a posted autocomplete input replaces the code field of its kind in the body and the form values, the body is cached under <leg>-form, nothing else changes, and the request continues |
| LocationBehaviour.LocationRequest.Validate | apps/egar/behaviours/location.js:125-164 | there are no errors exactly when the date is not past, the places do not conflict and ZZZZ is not given alone; a past date flags date and time; a conflict flags each kind of place given; ZZZZ alone flags the ICAO code; no other field is flagged |
| LocationBehaviour.LocationRequest.GetValues | apps/egar/behaviours/location.js:36-55 | after failed validation it passes on the cached form and removes it; otherwise it passes on the leg read from the API and clears errorValues; a failed read passes an error and empty values |
| LocationBehaviour.LocationRequest.SaveValues | apps/egar/behaviours/location.js:63-72 | it posts BodyOf the form values and the raw body to the leg's endpoint, and continues or fails as the post does |
| Paging.MaxPageNum | apps/egar/behaviours/utils/paging.js:29-33 | an empty collection has last page -1; otherwise the last page is the one that holds the last item, so no listed page is empty |
| Paging.PageEnd | apps/egar/behaviours/utils/paging.js:39-42 | the last item shown is never past the collection size, and is either that size or the end of the current page |
| Paging.Pathname | apps/egar/behaviours/utils/paging.js:54 | the path is the longest prefix of the URL without '?' or '#' |
| Paging.OmitPage | apps/egar/behaviours/utils/paging.js:55 | the kept parameters are exactly the query parameters not named 'p' |
| Paging.Stringify | apps/egar/behaviours/utils/paging.js:55 | each parameter as its escaped key, '=', and its escaped value, joined with '&'; empty exactly when there are no parameters; StringifyRoundTrip reads it back |
| Paging.Escape | apps/egar/behaviours/utils/paging.js:55 | an escaped key or value holds no '&', '=' or '+' |
| Paging.UnescapeEscape | apps/egar/behaviours/utils/paging.js:55 | unescaping an escaped text gives it back |
| Paging.StringifyRoundTrip | apps/egar/behaviours/utils/paging.js:55 | parsing the query string the pager builds gives back the same parameters in the same order |
| Paging.PagelessQueryString | apps/egar/behaviours/utils/paging.js:55-59 | the prefix is empty exactly when no parameter other than 'p' is left, and otherwise ends with '&' |
| Paging.GetPagingData | apps/egar/behaviours/utils/paging.js:28-67 | the flags are set on the first and the last page; the previous and next pages are clamped there; start and end bound the items shown; every page from 0 to the last is listed with its 1-based display number |
| Paging.PageWithinBounds | apps/egar/behaviours/utils/paging.js:34-42 | on any page from the first to the last, the previous and next links stay within the pages, and the items shown are a non-empty run of at most one page length |
| Paging.CurrentPage | apps/egar/behaviours/utils/paging.js:74-83 | a missing, empty or non-numeric 'p' gives page 0; otherwise the page is the floor of the number |
| Paging.LodashSlice | apps/egar/behaviours/utils/paging.js:96 | a slice is never longer than the list |
| Paging.UuidsForPageWindow | apps/egar/behaviours/utils/paging.js:92-99 | on a page numbered 0 or more, the UUIDs are that page's window of the list, cut at the end of the list |
| Paging.NegativePageCountsFromEnd | apps/egar/behaviours/utils/paging.js:74-99 | a page number below -1, which the query string allows, counts page lengths back from the end of the list |
| Paging.PagingTextMatchesUuids | apps/egar/behaviours/utils/paging.js:38-43 | the page of UUIDs is exactly the items 'start' to 'end' that the paging text names |
| Paging.PagesUpToPrefix | apps/egar/behaviours/utils/paging.js:92-99 | the first k pages read in order are the first k page lengths of the list |
| Paging.PagesCoverUuids | apps/egar/behaviours/utils/paging.js:29-52 | reading every listed page in order gives back the whole list of UUIDs |
| Coordinates.LatitudeAsWritten | apps/egar/fields/utils/regex.js:4-27 | the latitude pattern as written: N or S with degrees and minutes, an optionally signed decimal, or a run of the letter 's'; LatitudeDegreesMinutes, LatitudeDecimal, UnprefixedDigitsRejected and BlankAsWritten state which texts it accepts |
| Coordinates.LongitudeAsWritten | apps/egar/fields/utils/regex.js:4-49 | the longitude pattern as written: E or W with degrees and minutes, an optionally signed decimal, or a run of the letter 's'; LongitudeDegreesMinutes, LongitudeDecimal, UnprefixedDigitsRejected and BlankAsWritten state which texts it accepts |
| Coordinates.Latitude | apps/egar/fields/utils/regex.js:4-27 | the latitude pattern with a blank alternative of whitespace; it agrees with LatitudeAsWritten on every coordinate (LatitudeDegreesMinutes, LatitudeDecimal) and accepts blank text (BlankIntended) |
| Coordinates.Longitude | apps/egar/fields/utils/regex.js:4-49 | the longitude pattern with a blank alternative of whitespace; it agrees with LongitudeAsWritten on every coordinate (LongitudeDegreesMinutes, LongitudeDecimal) and accepts blank text (BlankIntended) |
| Coordinates.LatitudeDegreesMinutes | apps/egar/fields/utils/regex.js:10-27 | a hemisphere letter with two-digit degrees and two-digit minutes is a latitude exactly when the letter is N or S and the position is at most 89°59' or exactly 90°00'; both readings of the pattern agree |
| Coordinates.LatitudeDecimal | apps/egar/fields/utils/regex.js:14-27 | an optionally signed decimal with two-digit degrees and two decimals is a latitude exactly when it is at most 89.99 or exactly 90.00 |
| Coordinates.LongitudeDegreesMinutes | apps/egar/fields/utils/regex.js:30-49 | a hemisphere letter with degrees (up to three digits) and two-digit minutes is a longitude exactly when the letter is E or W and the position is at most 179°59' or exactly 180°00' |
| Coordinates.LongitudeTwoDigitDegrees | apps/egar/fields/utils/regex.js:33-49 | with two-digit degrees, an E or W letter with minutes up to 59 is always a longitude |
| Coordinates.LongitudeThreeDigitDegrees | apps/egar/fields/utils/regex.js:31-49 | with three-digit degrees, the position must be at most 179°59' or exactly 180°00' |
| Coordinates.LongitudeDecimal | apps/egar/fields/utils/regex.js:35-49 | an optionally signed decimal with degrees (up to three digits) and two decimals is a longitude exactly when it is at most 179.99 or exactly 180.00 |
| Coordinates.LongitudeTwoDigitDecimal | apps/egar/fields/utils/regex.js:37-49 | a decimal with two-digit degrees is always a longitude |
| Coordinates.LongitudeThreeDigitDecimal | apps/egar/fields/utils/regex.js:36-49 | a decimal with three-digit degrees is a longitude exactly when it is at most 179.99 or exactly 180.00 |
| Coordinates.SignedBody | apps/egar/fields/utils/regex.js:6-41 | a leading '+' or '-' is optional and does not change whether the rest is a decimal coordinate |
| Coordinates.NotBlank | apps/egar/fields/utils/regex.js:7-49 | a text containing a digit never matches the blank alternative, in either reading |
| Coordinates.UnprefixedDigitsRejected | apps/egar/fields/utils/regex.js:18-49 | digits with no hemisphere letter, sign or decimal point are never a latitude or a longitude |
| Coordinates.BlankAsWritten | apps/egar/fields/utils/regex.js:7-49 | as written, the blank alternative accepts any run of the letter 's' and rejects a single space |
| Coordinates.BlankIntended | apps/egar/fields/utils/regex.js:7-49 | with the intended blank alternative, any whitespace-only text is accepted and the letter 's' is not |
| TimeComponent.PartKeyStripped | mixins/egar-component-time/lib/time.js:16-19 | removing the '<key>-' prefix from a part field's name leaves the part's own name |
| TimeComponent.Configure | mixins/egar-component-time/lib/time.js:45-80 | it throws exactly when no key is given; otherwise minutes are optional only when the options say so, seconds are optional unless the options turn them off, optional minutes make seconds optional too, and the 24-hour pattern is set |
| TimeComponent.SettingsDefaults | mixins/egar-component-time/lib/time.js:49-70 | each part setting the caller gives wins, and each one left out takes the default |
| TimeComponent.PadDigits | mixins/egar-component-time/lib/time.js:31 | a part typed as one or two digits pads to two digits; one digit gets a leading '0' |
| TimeComponent.Pad | mixins/egar-component-time/lib/time.js:31 | the trimmed part, with a leading '0' when it is not blank and was typed shorter than two characters; PadDigits, PadBlank, PadShort and PadSpacedDigit state its cases |
| TimeComponent.PadBlank | mixins/egar-component-time/lib/time.js:31 | a whitespace-only part pads to '' |
| TimeComponent.PadSpacedDigit | mixins/egar-component-time/lib/time.js:31 | the leading '0' depends on the length as typed, so a digit with a space beside it is trimmed but not padded |
| TimeComponent.PaddedHourBlank | mixins/egar-component-time/lib/time.js:172-174 | the padded hour is blank exactly when the hour as typed is |
| TimeComponent.NothingTypedNothingWritten | mixins/egar-component-time/lib/time.js:169-188 | pre-process writes no time exactly when every part is missing or blank |
| TimeComponent.PadShort | mixins/egar-component-time/lib/time.js:31 | one or two digits pad to exactly two digits |
| TimeComponent.SettledPart | mixins/egar-component-time/lib/time.js:175-184 | a minute or second typed as one or two digits, or optional and left empty, settles to two digits, and the empty optional case gives '00' |
| TimeComponent.JoinedShape | mixins/egar-component-time/lib/time.js:185 | three two-digit texts joined with ':' read back at fixed positions |
| TimeComponent.ProcessedTimeShape | mixins/egar-component-time/lib/time.js:169-188 | with digits typed for the hour and for each required part, pre-process writes a time of the form HH:MM:SS, and an optional part left empty reads 00 |
| TimeComponent.ProcessedTime | mixins/egar-component-time/lib/time.js:169-188 | the time pre-process writes; ProcessedTimeShape and NothingTypedNothingWritten state its form |
| TimeComponent.AssignPieces | mixins/egar-component-time/lib/time.js:23-28 | the pieces go to hour, minute and second in order, and a fourth or later piece is stored under 'undefined' with the last one winning |
| TimeComponent.PartsRoundTrip | mixins/egar-component-time/lib/time.js:23-28 | splitting a joined time gives back the three parts it was joined from, provided none holds a ':' |
| TimeComponent.PartsFromTime | mixins/egar-component-time/lib/time.js:23-28 | the parts a time splits into at ':'; AssignPieces, AssignThree and PartsRoundTrip state them |
| TimeComponent.AssignThree | mixins/egar-component-time/lib/time.js:23-28 | three pieces fill exactly the hour, minute and second fields |
| TimeComponent.TimeRequest.constructor | mixins/egar-component-time/lib/time.js:84-119 | a request holds its body, form values, form errors and the session's errorValues and errors |
| TimeComponent.TimeRequest.PreProcess | mixins/egar-component-time/lib/time.js:169-188 | when some part is filled in, the joined time is written to the component's own field and the rest of the body is unchanged; otherwise nothing changes |
| TimeComponent.TimeRequest.PostGetValues | mixins/egar-component-time/lib/time.js:109-119 | when the field holds a time, its parts are added to the form values and the session's errorValues are laid over them; otherwise nothing changes |
| TimeComponent.TimeRequest.PreGetErrors | mixins/egar-component-time/lib/time.js:84-92 | a time in the session's errorValues is also split into its parts there; otherwise nothing changes |
| TimeComponent.TimeRequest.PostGetErrors | mixins/egar-component-time/lib/time.js:97-105 | when the session holds an error for the field, each of the three parts gets an error without a message, and every other error is unchanged |
| PersonService.EveryDetail | apps/egar/services/person.js:169-180 | the eleven person details are all mapped, both into the form and into the body |
| PersonService.PrettyDateReversed | apps/egar/services/person.js:139-144 | a YYYY-MM-DD date is shown as 'DD MM YYYY' |
| PersonService.Formatted | apps/egar/services/person.js:135-147 | the type is lower-cased, the details are kept, and each of the expiry date and the date of birth that is set gets its display form beside it |
| PersonService.FormattedTwice | apps/egar/services/person.js:135-147 | formatting a person a second time changes nothing more |
| PersonService.PersonRecord.constructor | apps/egar/services/person.js:165 | a person object holds the value the API returned |
| PersonService.PersonRecord.FormatPerson | apps/egar/services/person.js:135-147 | formatting in place leaves the object holding Formatted of its old value |
| PersonService.FormValuesOf | apps/egar/services/person.js:168-184 | a form field is present exactly when its value is set and not empty; the type and every detail but the gender are copied, and the gender is lower-cased |
| PersonService.GetPerson | apps/egar/services/person.js:156-186 | the fetched person is formatted in place and read into FormValuesOf the formatted person |
| PersonService.NewPersonBody | apps/egar/services/person.js:195-196 | a new person is posted with the form's type and no details |
| PersonService.UpdateBody | apps/egar/services/person.js:223-241 | the body carries the merged type, and a detail exactly when its merged value is set and not empty |
| PersonService.UpdatePerson | apps/egar/services/person.js:220-241 | the form is merged over the stored person in place, the form's values winning, and the body is UpdateBody of the merged values |
| PersonService.UpdateThenGet | apps/egar/services/person.js:135-186 | reading back an updated person gives exactly the non-empty merged values, provided the type and gender were already lower case |
| PersonService.NewPersonGet | apps/egar/services/person.js:156-209 | a newly posted person reads back with its type alone |
| PersonService.RequestedIds | apps/egar/services/person.js:86-116 | the people are fetched captain first when there is one, then the crew, then the passengers, each list in its own order |
| PersonService.FetchAll | apps/egar/services/person.js:86-118 | Promise.all over the person requests: every person in order exactly when every request succeeds, and otherwise the reason of a failed request |
| PersonService.GetPeopleDetails | apps/egar/services/person.js:74-133 | rejects with the lookup's reason when the lookup fails, and otherwise exactly when some person request fails, with the reason of one that failed; otherwise every requested person, fetched and formatted, in order, and hasPeople exactly when someone was fetched |
| PersonService.CaptainFirst | apps/egar/services/person.js:86-131 | with a captain and every request answered, there are people, and the first of them is the formatted captain |
| AttributesService.PickSet | apps/egar/services/attributes.js:59 | the kept entries are exactly those whose value is set and not empty, unchanged |
| AttributesService.AttributesOf | apps/egar/services/attributes.js:39-62 | a failed request rejects with its reason; a response without attributes, or with hazardous left out, rejects with a TypeError; otherwise the goods declaration is shown exactly when hazardous is a boolean, as its text, and the responsible person's type (lower-cased), name and number come only from a responsible person; the CTA declaration is never read back |
| AttributesService.GetAttributes | apps/egar/services/attributes.js:39-62 | the form values filled in one after another equal AttributesOf |
| AttributesService.BodyOf | apps/egar/services/attributes.js:73-94 | the CTA and goods declarations are sent exactly when set and not empty; a responsible person is sent exactly when its type is set and not empty, with its name and number only for the type 'other' |
| AttributesService.PostAttributes | apps/egar/services/attributes.js:72-111 | the form is merged over the stored attributes in place, the form winning; the body is BodyOf the merged values; a failed request resolves with nothing instead of rejecting |
| AttributesService.PostThenGet | apps/egar/services/attributes.js:39-111 | posting the form and reading the attributes back gives the goods declaration and the responsible type as they were, the name and number only for the type 'other', and never the CTA declaration |
| AircraftService.DetailsOf | apps/egar/services/aircraft.js:38-65 | a 400 gives undefined, and only a 400 does; a failed request, a body without an aircraft, or taxesPaid left out all hand back the error as the value; otherwise registration, type and base are copied and taxesPaid is shown as text unless it is null |
| AircraftService.GetAircraftDetails | apps/egar/services/aircraft.js:38-65 | the form values filled in one after another equal DetailsOf |
| AircraftService.BodyOf | apps/egar/services/aircraft.js:75-92 | the body holds every form field that is set and not empty, and nothing else |
| AircraftService.PostAircraftDetails | apps/egar/services/aircraft.js:75-109 | the body built field by field equals BodyOf; a failed request resolves with nothing instead of rejecting |
| AircraftService.PostThenGet | apps/egar/services/aircraft.js:38-109 | posting the aircraft form and reading it back gives the form's non-empty fields, and an empty field back as unset, when taxes-paid holds 'true', 'false' or nothing |
| BaseController.EgarInside | apps/base-controller.js:74-75 | a referrer holding '/egar/' also holds 'egar/', so the split at line 75 has a second piece |
| BaseController.AfterReferrer | apps/base-controller.js:65-76 | no referrer forgets the last page; a referrer holding '/egar/' that does not contain the current URL records the page it names; any other referrer changes nothing |
| BaseController.BackLinkOf | apps/base-controller.js:78-85 | the back link becomes 'summary' exactly when the last page is set and names the summary and the current page is not manage-gars (or it already was 'summary'); it changes only when a last page is set and the page is not manage-gars |
| BaseController.LastPage | apps/base-controller.js:78 | the last page reads as set exactly when the session holds text under lastPage |
| BaseController.FixBackLink | apps/base-controller.js:64-86 | without a session nothing changes; otherwise the session becomes AfterReferrer of the referrer (nil read as '') and the back link is BackLinkOf the new last page |
| BaseController.EgarAfterPrefix | apps/base-controller.js:75 | the first 'egar/' in '<prefix>egar/<page>' is the one right after the prefix when the prefix holds none |
| BaseController.FromWizardPage | apps/base-controller.js:72-85 | coming from '<origin>/egar/<page>', the session records <page> as the last page, and when that page is the summary (and the current page is not manage-gars) the back link goes to the summary |
| BaseController.SplitAfterPrefix | apps/base-controller.js:75 | splitting '<prefix>egar/<page>' at 'egar/' gives the prefix and the page when neither holds 'egar/' |
| BaseController.Prune | apps/base-controller.js:98-105 | the errors kept are exactly those for fields of the current form, unchanged |
| BaseController.Cleared | apps/base-controller.js:94-111 | the stored errors keep only the current form's fields (none when the form declares none); errorValues is emptied exactly when no error is left; nothing else changes |
| BaseController.ClearedTwice | apps/base-controller.js:94-111 | clearing residual errors a second time changes nothing more |
| BaseController.ClearResidualErrors | apps/base-controller.js:94-111 | deleting the stale keys one at a time leaves the session equal to Cleared of the old session |
| BaseController.Configure | apps/base-controller.js:51-57 | without a session it fails, as the code throws, and changes nothing; otherwise it fixes the back link, then clears residual errors, then continues, the new session and back link being the composition of the two |
| Helpers.ConditionalTranslate | mixins/helpers.js:13-16 | the result is nil exactly when the translator gives the key back, and the translation otherwise |
| Helpers.TranslationKey | mixins/helpers.js:18-20 | the field's own property wins when it is truthy; otherwise the key is 'fields.<key>.<property>' |
| Helpers.TranslationKeyParts | mixins/helpers.js:18-20 | the default key splits at '.' into 'fields', the field key and the property, when neither holds a '.' |
| Helpers.DefaultKeyParts | mixins/helpers.js:19 | 'fields.<key>.<property>' splits at '.' into its three names |
| Helpers.IsRequired | mixins/helpers.js:22-29 | an explicit required flag decides; otherwise the validate setting decides ('required' inside a single name, or the name 'required' in a list); otherwise the field is not required |
| Helpers.IndexOfValidator | mixins/helpers.js:26 | indexOf gives -1 exactly when the entry is missing, and otherwise the position of its first occurrence |
| Helpers.FindTyped | mixins/helpers.js:33-34 | the result is the first validator of the type, or -1 exactly when there is none |
| Helpers.ArgumentValue | mixins/helpers.js:36 | a single argument is given as it is, and a list gives its first element (nil when empty) |
| Helpers.FindTypedIsFirst | mixins/helpers.js:31-39 | the first validator of a type that the lookup finds is the only first one: any position holding that type with none before it is the found one |
| Helpers.MaxLength | mixins/helpers.js:31-39 | nil without a validate list; otherwise the argument of the first maxlength validator when there is one, else the argument of the first exactlength validator, else nil |
| Helpers.MaxLengthPrefersMaxlength | mixins/helpers.js:33-34 | a maxlength validator wins over an exactlength one wherever each stands in the list |
| Helpers.FieldType | mixins/helpers.js:41-43 | the type is the field's own type when set, and 'text' otherwise; it is never empty |
| Helpers.ClassNameString | mixins/helpers.js:45-50 | a list is joined with single spaces, and anything else is returned as it is |
| Helpers.ClassNames | mixins/helpers.js:52-58 | the property defaults to className; a missing or falsy property gives '', a list comes out space-joined, and anything else as it is |
| Helpers.ClassNamesListed | mixins/helpers.js:45-58 | splitting the joined class names at spaces gives the list back when no name holds a space |
| People.ButtonKey | apps/egar/behaviours/people.js:43-47 | the result is the first body key that starts with 'delete:', 'edit:' or 'add-new:', and nil exactly when no key does |
| People.PieceAt | apps/egar/behaviours/people.js:50-52 | a piece past the end of the split is undefined |
| People.NextPath | apps/egar/behaviours/people.js:79-93 | an edit goes to the captain, crew or passenger general step for those types (in any case) and to the page's own route for any other type |
| People.ButtonTask | apps/egar/behaviours/people.js:43-50 | a button key always splits into at least two pieces, the first being delete, edit or add-new |
| People.CrashOnlyWithoutButton | apps/egar/behaviours/people.js:41-57 | a POST without continue fails exactly when no body key names a button, and it never just carries on |
| People.Buttons | apps/egar/behaviours/people.js:134-150 | the page renders one button, the translated add-new button |
| People.AddNewButtonAdds | apps/egar/behaviours/people.js:43-66 | pressing the page's own add-new button adds a person, whatever the other keys of the body |
| People.AddNewIsButton | apps/egar/behaviours/people.js:43-50 | the add-new button's name is a button key whose task is add-new |
| People.ParseButton | apps/egar/behaviours/people.js:49-52 | a key '<task>:<type>:<id>' splits into its three parts when none holds a ':' |
| People.EditButtonRoundTrip | apps/egar/behaviours/people.js:49-98 | the key 'edit:<type>:<id>' edits that person and goes to the general step of its type |
| People.DeleteButtonRoundTrip | apps/egar/behaviours/people.js:49-75 | the key 'delete:<type>:<id>' deletes that person |
| People.ConfiguredBackLink | apps/egar/behaviours/people.js:26-31 | the back link becomes 'summary' when the summary flag is set, and is unchanged otherwise |
| People.SummaryBothWays | apps/egar/behaviours/people.js:26-31 | coming from the summary, both the back link and the continue button lead back to the summary |
| People.ForgetPerson | apps/egar/behaviours/people.js:62-64 | personId, person and attributes are unset, and nothing else changes |
| People.Process | apps/egar/behaviours/people.js:39-111 | add-new goes to /person-type and forgets the stored person; delete sends the deletion for the stored GAR and moves on only when it succeeds; edit stores the person id and goes to its general step; with no button key the request fails; a GET or continue goes on, to /summary when the flag is set |
| People.PlanOf | apps/egar/behaviours/people.js:39-111 | the step a request takes; CrashOnlyWithoutButton, AddNewButtonAdds, EditButtonRoundTrip, DeleteButtonRoundTrip and SummaryBothWays state its cases |
| People.ButtonFound | apps/egar/behaviours/people.js:43-47 | the first button key found by a scan is the one ButtonKey names |
| ManageGars.ActionKey | apps/egar/behaviours/manage-gars.js:40 | the result is the first body key that starts with '<action>-', and nil exactly when no key does |
| ManageGars.Selected | apps/egar/behaviours/manage-gars.js:39-47 | looking for the actions in order changes only garUuid and summaryMode |
| ManageGars.Matches | apps/egar/behaviours/manage-gars.js:39-47 | there is at most one redirect per action |
| ManageGars.Process | apps/egar/behaviours/manage-gars.js:27-52 | a GET is passed on; a Search submit changes nothing and sends no reply; any other POST selects the GAR and mode for each matching action, in order, with one redirect to the summary each |
| ManageGars.SelectAction | apps/egar/behaviours/manage-gars.js:43-44 | the selected GAR and the summary mode are stored, and nothing else changes |
| ManageGars.Forgotten | apps/egar/behaviours/manage-gars.js:61-63 | garUuid, summary and summaryMode are gone, and every other entry is kept |
| ManageGars.GetValues | apps/egar/behaviours/manage-gars.js:60-63 | showing the page leaves the session Forgotten |
| ManageGars.OneActionPerKey | apps/egar/behaviours/manage-gars.js:37-40 | a key matches at most one of edit, view and cancel |
| ManageGars.SelectsTheNamedGar | apps/egar/behaviours/manage-gars.js:37-47 | a body whose only key is '<action>-<uuid>' selects that GAR in that mode, with one redirect, and changes nothing else |
| ManageGars.SelectedOnly | apps/egar/behaviours/manage-gars.js:39-47 | when only one action matches, the fold sets that GAR and mode once it reaches the action, and not before |
| ManageGars.SelectedAfterShown | apps/egar/behaviours/manage-gars.js:39-63 | after the page has been shown, a GAR and a mode are selected exactly when some body key names an action |
| StepGraph.Target | apps/egar/index.js:59-70 | with no fork holding, the step goes to its next page; when the last fork holds it wins; in every case the result is the next page or the target of a fork that holds |
| StepGraph.BehavioursOf | apps/egar/index.js:30-376 | the behaviours each step runs; GarGuardEverywhereElse and ControllerLast state their order |
| StepGraph.NextOf | apps/egar/index.js:30-376 | the next page of each step; TargetsAreSteps shows every one is a wizard page |
| StepGraph.ForksOf | apps/egar/index.js:30-376 | the forks of each step; SummaryForkSteps, PersonTypeForks and SupportingFilesForks state them |
| StepGraph.PathRoundTrip | apps/egar/index.js:30-376 | each page's path names that page and no other |
| StepGraph.SummaryPairDecides | apps/egar/index.js:59-70 | exactly one fork of a summary pair holds, so such a step goes to the summary exactly when the summary flag is set |
| StepGraph.SummaryForkSteps | apps/egar/index.js:49-146 | aircraft, departure, arrival, goods, captain-responsible, crew-travel and passenger-travel fork on the summary flag between the summary and their usual next page |
| StepGraph.PersonTypeForks | apps/egar/index.js:156-185 | person-type goes to the captain, crew or passenger general page by the field's value, and to '/person-general' otherwise |
| StepGraph.SupportingFilesForks | apps/egar/index.js:336-351 | supporting-files goes to the upload page when the answer is 'true', and to the summary otherwise |
| StepGraph.GarGuardEverywhereElse | apps/egar/index.js:30-376 | every step runs GarGuard first, except /egar, /home, /manage-gars and /person-existing, which do not run it at all |
| StepGraph.ControllerLast | apps/egar/index.js:33-376 | every aggregated step ends with the page's controller and runs only guards before it |
| StepGraph.TargetsAreSteps | apps/egar/index.js:30-376 | every next page and fork target is one of the wizard's pages, except person-type's fallback '/person-general', which names none |
| StepGraph.EditTargetsAreGuarded | apps/egar/index.js:187-301 | the pages an edit on the people page leads to are the person-guarded general steps, or the people page itself |
| Guards.GarGuard | apps/egar/behaviours/guards/gar.js:28-35 | redirects to the manage-GARs page exactly when no GAR is selected and no header is sent, and otherwise lets the request through |
| Guards.PersonGuard | apps/egar/behaviours/guards/person.js:25-31 | redirects to the people page exactly when no person is selected, whether or not headers were sent, and otherwise lets the request through |
| Guards.FileGuard | apps/egar/behaviours/guards/file.js:25-31 | redirects to the upload page exactly when no file is uploaded and no header is sent, and otherwise lets the request through |
| Guards.CompleteGuard | apps/egar/behaviours/guards/complete.js:25-33 | lets the request through exactly when a GAR is selected, the referer mentions 'submit', nothing truthy is stored under the GAR's id, and no header is sent; redirects exactly when that fails before headers are sent; does neither exactly when headers are sent |
| Guards.ShownPageGuards | apps/egar/behaviours/guards/gar.js:28-35 | after the manage-GARs page is shown, the GAR guard redirects back to it |
| Guards.SelectedGarPasses | apps/egar/behaviours/guards/gar.js:28-35 | after a GAR is chosen on the manage-GARs page, the GAR guard lets every request through |
| Guards.EditedPersonPasses | apps/egar/behaviours/guards/person.js:25-31 | an edit button is read back as that person's id, and once that id is stored the person guard lets the request through |
| Guards.AddedPersonGuarded | apps/egar/behaviours/guards/person.js:25-31 | the add-person button is read as an add, and once the person id is forgotten the person guard redirects to the people page |
| Guards.FromSubmitCompletes | apps/egar/behaviours/guards/complete.js:25-33 | a request that comes from the submit page, with a GAR selected and nothing stored under its id, reaches the complete page |
| CodeSearch.Matching | middleware/iata.js:20 | keeps exactly the bucket's codes whose upper-case form starts with the term, and no more codes than the bucket holds |
| CodeSearch.MatchingConcat | middleware/icao.js:20 | the filter keeps the bucket's order: the matches of two joined buckets are the matches of each, in turn |
| CodeSearch.SearchTerm | middleware/iata.js:12-13 | a set, non-empty code becomes its upper-case form; a missing or empty code is kept as it is |
| CodeSearch.Options | middleware/iata.js:15-21 | no options unless the term has two or more characters and its first character has a bucket; otherwise the bucket's matching codes |
| CodeSearch.SearchIgnoresCase | middleware/icao.js:13-20 | a code and its upper-case form find the same options |
| CodeSearch.OptionsAreValid | middleware/iata.js:19-20 | with every code filed upper-case under its first character, every offered option is a valid code |
| CodeSearch.IsValidCode | assets/json/iata/index.js:7-9 | '' is valid, and any other code exactly when the bucket of its first character holds it; OptionsAreValid and ValidCodeIsFound tie it to the search |
| CodeSearch.ValidCodeIsFound | middleware/icao.js:19-20 | searching for a valid code of two or more characters, in upper or lower case, offers that code |
| CodeSearch.JsonString | middleware/iata.js:23 | a string none of whose characters JSON.stringify escapes is sent as itself between quotes |
| CodeSearch.EscapedChar | middleware/iata.js:23 | a character JSON.stringify leaves alone is kept as it is, and any other becomes an escape starting with a backslash |
| CodeSearch.Response | middleware/iata.js:15-23 | with no options the body is exactly '{"options":[]}' |
| CodeSearch.ShortTermNoOptions | middleware/icao.js:6-23 | a missing code, or one shorter than two characters, is answered with no options |
| CodeSearch.BucketKey | assets/json/iata/index.js:13 | the key is the character right after the first 'iata_' or 'icao_' in the path; there is none when that prefix is missing or ends the path |
| CodeSearch.FileKey | assets/json/icao/index.js:12-13 | a table file named '<kind>_<c>…' in a directory whose path has no such prefix is filed under c |
| CodeSearch.Load | assets/json/iata/index.js:12-14 | loading fails exactly when some file name gives no key; otherwise the last file's codes are the bucket of its key, and LoadLastWins gives every other key's bucket |
| CodeSearch.LoadLastWins | assets/json/iata/index.js:12-14 | a file that no later file shares its key with keeps its codes as that key's bucket |
| CodeSearch.LoadKeys | assets/json/icao/index.js:12-14 | the loaded tables have a bucket for exactly the keys that the file names give |

## Left out

- HTTP and the remote API: the request wrapper and every API call site. `services/file.js` is not part of this model. Each call's answer is an input, either as a value or as a `Thrown` outcome.
- Timers: `setInterval`/`setTimeout` in `services/submit.js` are not modelled as real time. The poll is a loop over the sequence of answers it reads, with the timeout as a bound on that loop. No concurrency is modelled.
- moment: only two forms are read: a date-time `YYYY-MM-DDTHH:MM:SS` with an optional trailing `Z` (19 or 20 characters), and, for dates of birth and expiry, a calendar date `YYYY-MM-DD`. Any other string is read as moment's invalid date, where moment would accept more forms. A string of these forms is read only when its fields are in range, as moment checks them. Every date-time is read and printed as it is written, as if in UTC. moment reads a string without `Z`, and a calendar date, in the server's local zone, and prints in local time; the model does not capture a server whose zone is not UTC, for which a `Z` date-time prints shifted. Other parsing and locale formatting are not modelled. The clock is the parameter `now`.
- Foreign libraries are parameters or are left out:
  - country-list names are a function parameter;
  - the translator is a function parameter;
  - Hogan rendering is left out;
  - of lodash, only the merge semantics the source relies on are modelled.
- Rendering hooks are left out: the `preRender` of the time and autocomplete components, the text expander, and the browser script of the autocomplete component. No UI or DOM is modelled.
- Controllers that only forward to a service or to the session, with no rule of their own, are left out. They are:
  - `aircraft.js`, `attributes.js`, `home.js`, `complete.js`;
  - `supporting-files.js`, `upload-files.js`, `upload-file-ok.js`;
  - `person.js`, the `person-existing` controllers, `egar.js`;
  - the registration welcome and sign-out pages.
- The unset guards are left out: each does one unconditional session unset.
- Plumbing is left out:
  - the file-upload middleware (multer, S3 and disk);
  - `app.js` and the application wiring;
  - the build scripts, the logger, and the argument parsing in `config.js`;
  - the field configuration objects. Only the field keys the rules use appear here.
- SummaryActions.CancelReply: for a CANCELLED answer the source both redirects and then calls `next()` (`apps/egar/behaviours/summary.js:611-612`). The model gives only the redirect.
- SummaryView.SummaryPage.CreateSummary:
  - `summary.validationError` holds the whole errors object in the source; the model keeps only its error list.
  - shown validation errors are merged through `Conclude`, so the passengers follow the corrected lookup, as for MergePeopleErrors.
  - `metaRefreshTime` is not modelled.
- Aggregator: an error value that is an empty string counts as no error under `!!r.err`. The model's errors are `Option` values, so this case is not modelled.
- Null values: a coordinate that is `null` is shown as '' on the summary page but as "null" by the pre-submission location check. The model follows each call site. A leg date-time that is absent is read as `null`, so `GarService.CanCancelAt` gives false. In the source an absent (undefined) date-time makes `moment(undefined)` the current time, so under an 'after' window such a GAR can be cancelled; only a `null` date-time gives false. A submitted GAR has passed the date check, so this case does not arise from the wizard.
- PersonService.FormValuesOf: the gender is read back through lodash `lowerCase` (`apps/egar/services/person.js:172`), which also splits words at case changes and separators and drops punctuation; the model lower-cases letters only. The two agree on the one-word genders the API returns.
- SummaryView.ShowDetails: the gender is shown through lodash `lowerCase` then `upperFirst` (`apps/egar/behaviours/summary.js:328`); the same difference applies.
- Common.ToUpper, Common.ToLower: only ASCII letters change case. JavaScript's `toUpperCase` and `toLowerCase` map all of Unicode, and `toUpperCase` can lengthen a string ('ß' becomes 'SS'), which can change the first character a code search looks up (`middleware/iata.js:13`). The model covers codes and types written in ASCII.
- PersonService.GetPeopleDetails: the `lastPerson` flag set at `apps/egar/services/person.js:121` is dropped by the map that follows, so it is not modelled.
- The `deletePerson` and `getPeople` calls of the person service only send a request and pass its answer on, so they are left out. Their URLs are modelled.
- The people page's `getValues` only forwards to `getPeopleDetails`, so it is left out. The manage-GARs page takes the `getGars` fetch as an input.
- CodeSearch.Load: the order in which the code-table files are read, and their JSON parsing, are inputs.
- Paging.Escape: a character outside ASCII is kept as it is. `querystring.escape` percent-encodes its UTF-8 bytes. The round trip holds either way.
- Paging.Parse: `querystring.parse` keeps at most 1000 parameters, and the model has no such limit. Parse serves only to state the round trip of Stringify.
- ManageGars.Process: when two body keys name actions, the second action still stores its GAR and mode. Its `res.redirect` then throws, because the first redirect has already sent the headers, and no later action is reached. The model records one redirect per matching action instead. A browser posts only the button that was pressed, so a real request has one action key.
- GarModel.ParseIso: moment also reads the hour 24 when the minutes and seconds are zero, as midnight at the end of that day, and shows it as the next day at 00:00. The model reads it as an invalid date.
- SubmitBehaviour.SaveValues: it follows the corrected plan `ChoosePlan`, which gives up at the last attempt. As written (`apps/egar/behaviours/submit.js:460-468`), the TIMEOUT answer built at the last attempt is overwritten by a new poll, so the page re-posts on every attempt. `ChoosePlanAsWritten` and `AsWrittenRetriesForever` model that behaviour (see Findings).
- SummaryActions.CancelGar: it follows the corrected plan `ChooseCancelPlan`, which gives up at the last attempt. As written (`apps/egar/behaviours/summary.js:597-605`), the cancel poll re-posts on every attempt. `ChooseCancelPlanAsWritten` and `CancelAsWrittenRetriesForever` model that behaviour (see Findings).
- SummaryActions.Process: its cancel-gar branch runs `CancelGar`, so it follows the corrected cancel plan as well.
- SubmitBehaviour.ValidateFiles: it reports files through `FileErrors`, which resets the message key for each file. As written (`apps/egar/behaviours/submit.js:372-404`), a VIRUS_SCANNED file that follows a bad file joins that file's error. `FileErrorsAsWritten` models that behaviour (see Findings). Both report nothing exactly when every file is VIRUS_SCANNED (`FileErrorsEmpty`).
- SubmitBehaviour.GarValidation: its files errors are the corrected `FileErrors`, as for ValidateFiles.
- SubmitBehaviour.Validate: the garErrors it stores hold the corrected files errors, as for ValidateFiles. Whether it goes on or redirects is the same either way, by `FileErrorsEmpty`.
- SummaryView.SummaryPage.MergePeopleErrors: it merges the passengers' messages through the corrected `LookupFields("passengers")`, so a missing issuing country shows beside the passenger. As written (`apps/egar/behaviours/summary.js:520-522`), the ninth field is 'passenger-document_issuingCountry', under which no error is filed, so that message is always blank. `PassengerListingAsWritten` proves this is the only difference: the as-written listing is the corrected one with the ninth message blank.
- SummaryView.SummaryPage.MergeSections: its people are merged by `MergePeopleErrors`, so it follows the corrected passenger lookup as well.
- SummaryView.SummaryPage.MergeValidation: it merges people through `MergeSections`, so the same difference applies.
- SummaryView.SummaryPage.GetSummaryErrors: a validation list is merged by `MergeValidation`, so the same difference applies.
- SummaryView.SummaryPage.Conclude: shown validation errors go through `GetSummaryErrors`, so the same difference applies.
- SummaryActions.GetValues: the summary it builds comes from `CreateSummary`, so the same difference applies.
- Aggregator.ButtonsOf: a `buttons` local that is text or a flag is read as no buttons. `locals.buttons || []` (`apps/egar/behaviours/aggregator.js:174`) keeps a truthy one, and the `concat` that follows then works on that value.
- CodeSearch.SearchTerm: the query's `code` is a single string. A repeated `?code=` gives an array, and its `toUpperCase` call throws (`middleware/iata.js:13`). The model does not represent that case.
- Paging: query values are flat strings. Arrays and nested values of `querystring` are not modelled.

## Findings

| source | as written | input that shows it | evidently intended | confidence | as-written member | corrected member |
|---|---|---|---|---|---|---|
| apps/egar/behaviours/submit.js:460-468 | at the last poll attempt a synthetic TIMEOUT promise is built, then overwritten at once by a new poll | a submitted GAR that is not DRAFT or FAILED, with the attempt count at `max-submission-polls` and no terminal answer yet: the page polls again, and retries never end | at the last attempt answer TIMEOUT with the submission-timeout reason and stop polling | high, not executed | SubmitBehaviour.ChoosePlanAsWritten, SubmitBehaviour.AsWrittenRetriesForever | SubmitBehaviour.ChoosePlan, SubmitBehaviour.IntendedRetriesStop |
| apps/egar/behaviours/summary.js:597-605 | the cancel poll has the same overwrite of the TIMEOUT promise | a cancel request at `max-submission-polls` attempts with no terminal answer: the page polls again, and retries never end | at the last attempt answer TIMEOUT and stop polling | high, not executed | SummaryActions.ChooseCancelPlanAsWritten, SummaryActions.CancelAsWrittenRetriesForever | SummaryActions.ChooseCancelPlan, SummaryActions.CancelIntendedRetriesStop |
| apps/egar/behaviours/summary.js:522 | the passenger issuing-country error is looked up under 'passenger-document_issuingCountry', but validation files it under 'passengers-document_issuingCountry' | one passenger 'p1' with no details: validation reports a missing issuing country for 'p1', and the summary shows no error beside it | look the error up under the 'passengers-' field, as the other passenger fields are | high, not executed | SummaryView.PassengerLookupAsWritten, SummaryView.PassengerIssueErrorAsWrittenHidden, SummaryView.PassengerIssueErrorCounterexample | SummaryView.LookupFields, SummaryView.PassengerIssueErrorShown |
| apps/egar/behaviours/submit.js:372-404 | `errorMessage` is declared once outside the loop and is not reset for a VIRUS_SCANNED file | a QUARANTINED file 'f1' followed by a VIRUS_SCANNED file 'f2': the virus error names both 'f1' and 'f2' | a VIRUS_SCANNED file adds no error, so each error names only the files that caused it | high, not executed | SubmitBehaviour.FileErrorsAsWrittenCounterexample | SubmitBehaviour.FileErrorsSound |
| apps/egar/fields/utils/regex.js:7 | `'\s*'` in a plain string literal is the two characters `s*`, so the blank alternative of the coordinate patterns is `s*` | the latitude 'sss' is accepted, and a latitude of spaces ' ' is rejected | the blank alternative matches white space only | medium, not executed | Coordinates.BlankAsWritten | Coordinates.BlankIntended |
