# EduCounsel core, modelled in Dafny

EduCounsel is a school-counseling log. Counselors record interactions with
students and with their contacts: parents, DCFS workers, teachers,
administrators and others. Each interaction has:

- a date, a start time and an end time, and the duration computed from them;
- one or more catalogued reasons, each a category and a subcategory;
- free notes;
- an optional follow-up flag with a due date.

This project models the core of that application:

- **The application store** (`AppContext`). It is a class whose sequence
  fields are the profiles, students, contacts, interactions and reasons,
  plus the counselor statistics. Every operation keeps those statistics equal
  to a function of the interaction log.
- **The seed-data generator** (`MockData`). The random draws are
  nondeterministic choices inside the ranges the generator uses.
- **The views and forms built on the store** (the other modules):
  - the interaction list's filter pipeline;
  - the dashboard's category counts and upcoming follow-ups;
  - the admin report's statistics and CSV export;
  - the student and contact lists and detail pages;
  - the interaction detail page;
  - the reason-management screen;
  - the three entry forms, with their validation.

Shared vocabulary lives in helper modules:

- `Types`: the entities;
- `Time`: "HH:MM" clock texts;
- `Strings`: lower-casing, substring search, trimming, ISO-date comparison and
  decimal digits;
- `Seqs`: filter, find, a stable insertion sort and de-duplication;
- `Numbers`: JavaScript's floor division and truncating remainder;
- `CategoryCounts`: the reason-category tally;
- `ReasonGroups`: grouping reasons by category;
- `PersonHistory`: one person's interactions, newest first;
- `TimeFormat`: the "Xh Ym" duration text;
- `FormErrors`: the per-field error maps of the forms.

Modelling conventions:

- **Ids.** Generated ids (`generateId`) are parameters of the operations that
  need one.
- **Dates.** Dates are ISO `YYYY-MM-DD` strings, compared lexicographically.
  "Today" and the date-range limits are parameters.
- **Sorting.** JavaScript's `Array.prototype.sort` is modelled as a stable
  sort under a strict weak order.

Where the code behaves differently from what a reader might expect, the model
follows the code:

- The interaction form clamps a negative computed duration to 0
  (`InteractionForm.tsx:65-72`). So its "End time must be after start time"
  check (`InteractionForm.tsx:115`) never fires, and an interaction whose end
  precedes its start is accepted.
  - `InteractionForm.EndBeforeStartPasses` proves this.
  - The store itself still records the negative duration it computes.
- The contact form's e-mail check is the regular expression
  `^\S+@\S+\.\S+$`, which is looser than a strict `local@domain.tld` shape.
  - For example, a second `@` is accepted.
  - `ContactForm.EmailPatternIff` characterises what it accepts.

## Model

| member | source | states |
|---|---|---|
| AppContext.CalculateInteractionDuration | src/contexts/AppContext.tsx:132-140 | start minutes plus the duration equal end minutes; the duration is negative exactly when the end precedes the start |
| AppContext.EndTimeRoundTrip | src/services/mockData.ts:115-121 | a seed end time computed from a start and a non-negative duration is a clock text, and the store's duration of that pair is the duration again |
| AppContext.SumDurationsPointwise | src/contexts/AppContext.tsx:199-222 | total time depends only on the durations, position by position |
| AppContext.StatsPointwise | src/contexts/AppContext.tsx:199-222 | the statistics depend only on each interaction's type, duration and follow-up flag |
| AppContext.StatsAfterPrepend | src/contexts/AppContext.tsx:142-152 | adding an interaction at the head raises the count by one and total time by its duration, and raises the student/contact and follow-up counts by its own type and flag |
| AppContext.StatsAfterDelete | src/contexts/AppContext.tsx:174-178 | after deleting by id, the count is the old count minus the number of interactions with that id |
| AppContext.RenamePersonSpec | src/contexts/AppContext.tsx:85-99 | renaming keeps the log's length; each entry of that person gets the new name and everything else is unchanged |
| AppContext.RenameKeepsStats | src/contexts/AppContext.tsx:111-125 | renaming a person in the log leaves the counselor statistics unchanged |
| AppContext.Store.constructor | src/contexts/AppContext.tsx:50-58 | the store starts from the seed collections, with statistics consistent with the seed log |
| AppContext.Store.AddProfile | src/contexts/AppContext.tsx:60-63 | the profile is appended under the generated id |
| AppContext.Store.UpdateProfile | src/contexts/AppContext.tsx:65-69 | every profile with that id is replaced; an unknown id changes nothing |
| AppContext.Store.DeleteProfile | src/contexts/AppContext.tsx:71-74 | exactly the profiles with other ids remain, in order |
| AppContext.Store.GetProfileById | src/contexts/AppContext.tsx:76-78 | returns the first stored profile with that id, and nothing exactly when no profile has it |
| AppContext.Store.AddStudent | src/contexts/AppContext.tsx:80-83 | the student is appended under the generated id |
| AppContext.Store.UpdateStudent | src/contexts/AppContext.tsx:85-99 | the student is replaced by id and that student's interactions take the new full name; an unknown id leaves the roster unchanged |
| AppContext.Store.DeleteStudent | src/contexts/AppContext.tsx:101-104 | exactly the students with other ids remain; the interaction log is untouched |
| AppContext.Store.AddContact | src/contexts/AppContext.tsx:106-109 | the contact is appended under the generated id |
| AppContext.Store.UpdateContact | src/contexts/AppContext.tsx:111-125 | the contact is replaced by id and that contact's interactions take the new full name |
| AppContext.Store.DeleteContact | src/contexts/AppContext.tsx:127-130 | exactly the contacts with other ids remain |
| AppContext.Store.UpdateStatsFromInteractions | src/contexts/AppContext.tsx:199-222 | the statistics become those of the given log |
| AppContext.Store.AddInteraction | src/contexts/AppContext.tsx:142-152 | the interaction goes to the head of the log under the generated id, with its duration recomputed from its times; the statistics stay consistent |
| AppContext.Store.UpdateInteraction | src/contexts/AppContext.tsx:154-172 | the interaction is replaced by id with its duration recomputed; an unknown id leaves the log unchanged; the statistics stay consistent |
| AppContext.Store.DeleteInteraction | src/contexts/AppContext.tsx:174-178 | exactly the interactions with other ids remain, and the statistics are recomputed |
| AppContext.Store.AddReason | src/contexts/AppContext.tsx:180-183 | the reason is appended under the generated id |
| AppContext.Store.UpdateReason | src/contexts/AppContext.tsx:185-189 | the reason is replaced by id; an unknown id changes nothing |
| AppContext.Store.DeleteReason | src/contexts/AppContext.tsx:191-193 | exactly the reasons with other ids remain |
| AppContext.Store.GetReasonById | src/contexts/AppContext.tsx:195-197 | returns the first catalogued reason with that id, and nothing exactly when none has it |
| AppContext.Store.UpdateStats | src/contexts/AppContext.tsx:224-226 | the statistics become those of the current log |
| MockData.RandomTime | src/services/mockData.ts:108-112 | a drawn start time is a five-character "HH:MM" between 08:00 and 15:45, on a quarter hour |
| MockData.CalculateEndTime | src/services/mockData.ts:115-121 | for a non-negative total, the end time is a clock text at the start plus the duration |
| MockData.CalculateStats | src/services/mockData.ts:214-228 | the count is the log's length, student plus contact counts make up that count, and follow-ups never exceed it |
| MockData.PickReasons | src/services/mockData.ts:138-146 | between one and the requested number of distinct catalogued reason ids, duplicates skipped |
| MockData.DrawFollowUpDate | src/services/mockData.ts:161 | a drawn follow-up date is one of the recent dates, or there is none |
| MockData.StudentInteraction | src/services/mockData.ts:128-165 | a seed student record is well formed: school-hour start, a duration of 15/30/45/60 that matches its times, 1-3 distinct reasons, and the student's id and full name |
| MockData.ContactInteraction | src/services/mockData.ts:167-202 | a seed contact record is well formed, with a duration of 15/30/45, 1-2 distinct reasons, and the contact's id and full name |
| MockData.NewestFirstOrder | src/services/mockData.ts:204-208 | the seed log's order (latest date first, then latest start time) is a strict weak order |
| MockData.GenerateMockInteractions | src/services/mockData.ts:124-209 | the records pushed for each student are 1-3 of that student's, those for each contact at most one of that contact's; the result is exactly those records (as a multiset), every one well formed, sorted newest first |
| InteractionList.NarrowIf | src/components/interactions/InteractionList.tsx:18-78 | one pipeline stage: an active filter keeps exactly the copies its predicate accepts, in order; an inactive one keeps everything |
| InteractionList.FilterInteractions | src/components/interactions/InteractionList.tsx:18-78 | the rows are an ordered subsequence of the log holding every copy of each interaction that passes all active filters (search, type, date range, category, follow-up) and nothing else |
| InteractionList.ReasonLabelParts | src/components/interactions/InteractionList.tsx:175-216 | the label names the first reason when it resolves and "No reason specified" otherwise; a " +N more" suffix appears exactly when there are more reasons, and N reads back as how many |
| InteractionList.Categories | src/components/interactions/InteractionList.tsx:82 | the category choices are duplicate-free and are exactly the categories of the catalogue |
| CategoryCounts.TallyCounts | src/components/dashboard/Dashboard.tsx:20-33 | a category's count is the number of reason ids resolving to a reason of that category, and a category is a key exactly when its count is positive |
| CategoryCounts.TallyKeys | src/components/dashboard/Dashboard.tsx:20-33 | the keys are exactly the categories some reason id resolves to |
| CategoryCounts.TallySum | src/components/dashboard/Dashboard.tsx:20-33 | the counts add up to the number of reason ids that resolve at all |
| Dashboard.GetInteractionCategories | src/components/dashboard/Dashboard.tsx:20-33 | the nested loop computes the tally of all reason ids in the log |
| Dashboard.CategoriesCount | src/components/dashboard/Dashboard.tsx:20-35 | per category, the dashboard count is how many reason ids of the log fall in it, and the counts sum to the resolving ids |
| Dashboard.TwoReasonsOneCategory | src/components/dashboard/Dashboard.tsx:20-33 | an interaction with two distinct reasons of one category counts twice for that category |
| Dashboard.FormatTimeReadsBack | src/components/dashboard/Dashboard.tsx:13-17 | for a non-negative total, the text is "Hh Mm" with H*60+M equal to the total and M below 60 |
| Dashboard.FormatTimeNegative | src/components/dashboard/Dashboard.tsx:13-17 | a negative total shows as "-Hh -Mm" ("-Hh 0m" for whole hours), with H the floored hours and M the truncated remainder, so the parts overstate the total by an hour whenever M is not zero |
| Dashboard.RecentIsPrefix | src/components/dashboard/Dashboard.tsx:92 | the recent list is the first five interactions of the log, or all of them when there are fewer |
| TimeFormat.FormatTimeReadsBack | src/components/reports/AdminReports.tsx:80-84 | a total of an hour or more reads "Hh Mm" with H positive, H*60+M equal to the total and M below 60; a smaller total reads "Mm" |
| TimeFormat.FormatTimeNegative | src/components/reports/AdminReports.tsx:80-84 | a negative total shows only JavaScript's truncated remainder, as "-Rm" or "0m" |
| UpcomingFollowUps.EarlierDueOrder | src/components/dashboard/UpcomingFollowUps.tsx:12-15 | the due-date comparator is a strict weak order |
| UpcomingFollowUps.UpcomingPending | src/components/dashboard/UpcomingFollowUps.tsx:10-16 | every listed interaction needs a follow-up and has a non-empty due date |
| UpcomingFollowUps.UpcomingLength | src/components/dashboard/UpcomingFollowUps.tsx:10-16 | the panel lists the smaller of five and the number of pending follow-ups |
| UpcomingFollowUps.UpcomingAscending | src/components/dashboard/UpcomingFollowUps.tsx:12-15 | listed due dates never decrease |
| UpcomingFollowUps.UpcomingEarliest | src/components/dashboard/UpcomingFollowUps.tsx:10-16 | a pending follow-up left off the list is due no earlier than any listed one |
| UpcomingFollowUps.UpcomingStable | src/components/dashboard/UpcomingFollowUps.tsx:12-16 | the listed follow-ups due on any one day are the first of that day's pending follow-ups, in log order |
| UpcomingFollowUps.UpcomingEmpty | src/components/dashboard/UpcomingFollowUps.tsx:18-24 | the list is empty exactly when no interaction has a pending follow-up |
| UpcomingFollowUps.PastDueAgrees | src/components/dashboard/UpcomingFollowUps.tsx:29-30 | a listed follow-up is past due exactly when its date is before today, the same test as the interaction list's (InteractionList.tsx:179-182) |
| UpcomingFollowUps.Render | src/components/dashboard/UpcomingFollowUps.tsx:18-46 | the panel shows the empty message exactly when there is no pending follow-up, and otherwise one row per listed follow-up, at most five, in order; each row shows that record's person and notes, and "Past Due" exactly when its date is before today, the date otherwise |
| AdminReports.FilteredKeeps | src/components/reports/AdminReports.tsx:23-34 | the report holds, in order, every copy of each interaction dated within the range, both ends included, and matching the counselor selection, and nothing else; a cleared start or end date empties it |
| AdminReports.CalculateReportStats | src/components/reports/AdminReports.tsx:37-58 | the count is the report's length and the total is the sum of its durations; the average is 0 for an empty report and otherwise the total divided by the count rounded to the nearest minute, a half rounding up (`Math.round`) |
| AdminReports.PersonIdsOfTypeMembers | src/components/reports/AdminReports.tsx:44-49 | the collected ids are exactly the person ids of the report's interactions of that type |
| AdminReports.DistinctPersonCounts | src/components/reports/AdminReports.tsx:44-49 | the student and contact counts are the numbers of distinct person ids of each type, at most that type's interaction count |
| AdminReports.ReasonDistributionCounts | src/components/reports/AdminReports.tsx:63-77 | each category's count is the number of the report's reason ids in it, summing to those that resolve |
| AdminReports.UndoubleDouble | src/components/reports/AdminReports.tsx:133 | doubling every quote is undone by halving doubled quotes |
| AdminReports.NotesCellRoundTrip | src/components/reports/AdminReports.tsx:133 | the notes cell is quoted, and its inside reads back as the original notes |
| AdminReports.CsvRow | src/components/reports/AdminReports.tsx:111-137 | a row has one cell per header, eleven |
| AdminReports.CsvRowCells | src/components/reports/AdminReports.tsx:117-136 | the reasons cell joins one segment per reason id with "; ", empty exactly for ids that do not resolve; "Yes" exactly when a follow-up is needed; the follow-up date or "" |
| AdminReports.CsvContentLines | src/components/reports/AdminReports.tsx:140 | with no line break inside a row, the file splits into the header line followed by one line per reported interaction |
| AdminReports.HeaderLineOneLine | src/components/reports/AdminReports.tsx:96-108 | the header line contains no line break |
| AdminReports.CollapseSpacesNoSpace | src/components/reports/AdminReports.tsx:148 | replacing white-space runs with "_" leaves no white space |
| AdminReports.CollapseSpacesNoRun | src/components/reports/AdminReports.tsx:148 | a text without white space is unchanged |
| AdminReports.CollapseSpacesRun | src/components/reports/AdminReports.tsx:148 | a whole run of white space becomes one "_" |
| AdminReports.FileNameCounselorPart | src/components/reports/AdminReports.tsx:88-93 | the counselor part of the file name has no white space |
| StudentList.EmptySearchKeepsAll | src/components/students/StudentList.tsx:11-16 | an empty search shows every student |
| StudentList.SearchIgnoresCase | src/components/students/StudentList.tsx:11-16 | searching the lower-cased term shows the same students |
| StudentList.LongerTermNarrows | src/components/students/StudentList.tsx:11-16 | extending the term only removes students, keeping order |
| StudentList.GetStudentStats | src/components/students/StudentList.tsx:19-29 | a student's count never exceeds the log's length |
| StudentList.HasFollowUpIff | src/components/students/StudentList.tsx:26 | the follow-up badge shows exactly when one of the student's interactions needs a follow-up |
| StudentList.AnyFollowUpCount | src/components/students/StudentList.tsx:26 | `some` holds exactly when the follow-up count is positive |
| StudentList.StudentStatsAfterPrepend | src/components/students/StudentList.tsx:19-29 | a new interaction of the student adds one to the count and its duration to the minutes; others leave the card unchanged |
| ContactList.EmptySearchFiltersByType | src/components/contacts/ContactList.tsx:12-24 | an empty search shows the contacts of the selected type, or all of them when 'all' is selected |
| ContactList.SearchIgnoresCase | src/components/contacts/ContactList.tsx:12-24 | searching the lower-cased term shows the same contacts |
| ContactList.EmptyFieldTestIsRedundant | src/components/contacts/ContactList.tsx:16-19 | the truthiness test on the optional fields changes nothing, since an empty field contains only the empty term, which the names already match |
| ContactList.ContactTypesMembers | src/components/contacts/ContactList.tsx:27 | the type choices are duplicate-free and exactly the types present |
| ContactList.ContactTypesOrder | src/components/contacts/ContactList.tsx:27 | the types appear in the order of their first contact |
| ContactList.ContactTypesAtMostFive | src/components/contacts/ContactList.tsx:27 | there are at most five type choices |
| ContactList.FirstOfKindIsIndexOf | src/components/contacts/ContactList.tsx:27 | a type's place is the index of its first contact |
| ContactList.GetContactStats | src/components/contacts/ContactList.tsx:30-38 | a contact's count never exceeds the log's length |
| ContactList.ContactStatsAfterPrepend | src/components/contacts/ContactList.tsx:30-38 | a new interaction with the contact adds one; others leave the count unchanged |
| ContactList.ContactStatsZero | src/components/contacts/ContactList.tsx:30-38 | the count is zero exactly when no contact-type interaction names that contact |
| PersonHistory.LaterDateOrder | src/components/students/StudentDetail.tsx:31-33 | the newest-first comparator is a strict weak order |
| PersonHistory.HistoryMembers | src/components/students/StudentDetail.tsx:31-33 | the history holds every copy of the person's interactions of that type and nothing else |
| PersonHistory.HistoryLatestFirst | src/components/contacts/ContactDetail.tsx:31-33 | history dates never increase |
| PersonHistory.HistorySameDayInLogOrder | src/components/students/StudentDetail.tsx:31-33 | interactions on the same day keep their log order |
| PersonHistory.SumDurationsSortBy | src/components/students/StudentDetail.tsx:33-37 | sorting does not change total time |
| PersonHistory.HistoryTotals | src/components/students/StudentDetail.tsx:36-38 | count, minutes and follow-ups of the sorted history equal those of the unsorted selection |
| PersonHistory.FollowUpNoteAgrees | src/components/students/StudentDetail.tsx:179-185 | the history names a follow-up date exactly for the interactions the dashboard lists as pending |
| StudentDetail.ViewLooksUp | src/components/students/StudentDetail.tsx:13-29 | the page says "Student not found." exactly when no student has the id; otherwise it shows that student and their history |
| StudentDetail.ViewAgreesWithCard | src/components/students/StudentDetail.tsx:31-38 | the page's count, minutes and time text agree with the list card, and it shows follow-ups exactly when the card's badge does |
| StudentDetail.HandleDelete | src/components/students/StudentDetail.tsx:40-43 | the student is removed from the roster and the log is untouched |
| ContactDetail.ViewLooksUp | src/components/contacts/ContactDetail.tsx:13-29 | the page says "Contact not found." exactly when no contact has the id |
| ContactDetail.ViewAgreesWithCard | src/components/contacts/ContactDetail.tsx:31-37 | the page's count agrees with the list card, and its minutes and time text with the contact's interactions |
| ContactDetail.HandleDelete | src/components/contacts/ContactDetail.tsx:39-42 | the contact is removed and the log is untouched |
| ReasonGroups.GroupedSpec | src/components/interactions/InteractionForm.tsx:170-176 | each group key is a category present, each group is that category's reasons in catalogue order, and the group sizes add up to the catalogue's size |
| ReasonGroups.GroupByCategory | src/components/admin/ReasonManagement.tsx:52-58 | the loop builds exactly the grouping specified by `Grouped` |
| ReasonGroups.ExactlyOneGroup | src/components/interactions/InteractionForm.tsx:170-176 | each reason is listed under its own category and under no other |
| FormErrors.RequireSpec | src/components/interactions/InteractionForm.tsx:109-124 | a failing check sets its field's message and touches no other key; a passing one changes nothing |
| FormErrors.ClearErrorOnlyThatField | src/components/interactions/InteractionForm.tsx:85-88 | clearing blanks only the changed field's message and keeps every key |
| InteractionForm.ParamOr | src/components/interactions/InteractionForm.tsx:29-39 | a present, non-empty query value wins; a missing or empty one falls back to the default |
| InteractionForm.FormDurationClamp | src/components/interactions/InteractionForm.tsx:65-72 | the shown duration is never negative: it is the computed one when the end is not before the start, and 0 otherwise |
| InteractionForm.DefaultDuration | src/components/interactions/InteractionForm.tsx:31-42 | the default times 08:00-08:30 give the initial 30 minutes |
| InteractionForm.MissingFieldsEmpty | src/components/interactions/InteractionForm.tsx:109-124 | no field is missing exactly when date, times and person are set, there is a reason, and a needed follow-up has a date |
| InteractionForm.CheckStep | src/components/interactions/InteractionForm.tsx:109-124 | each check extends the fields correctly reported by exactly its own field |
| InteractionForm.AllChecksReport | src/components/interactions/InteractionForm.tsx:109-124 | after all checks, the message keys are exactly the missing fields, each with its required-field message |
| InteractionForm.EndBeforeStartPasses | src/components/interactions/InteractionForm.tsx:115 | an end before the start gives duration 0 and no end-time message |
| InteractionForm.ToggleReasonSpec | src/components/interactions/InteractionForm.tsx:91-101 | checking appends the id; unchecking removes every copy of it and keeps the others, in order |
| InteractionForm.ToggleReasonRoundTrip | src/components/interactions/InteractionForm.tsx:91-101 | checking then unchecking a reason not yet selected restores the selection |
| InteractionForm.PersonNameEmptyIff | src/components/interactions/InteractionForm.tsx:131-144 | the name is empty exactly when the id names no person of the selected type (a full name always holds the separating space) |
| InteractionForm.FormState.constructor | src/components/interactions/InteractionForm.tsx:29-42 | the form starts from the query defaults, with no messages |
| InteractionForm.FormState.LoadForEdit | src/components/interactions/InteractionForm.tsx:45-62 | in edit mode with a known id, the form shows that interaction; otherwise it is unchanged |
| InteractionForm.FormState.HandleChange | src/components/interactions/InteractionForm.tsx:74-89 | only the changed input takes the new value, only its message is cleared, and the shown duration follows the times |
| InteractionForm.FormState.HandleReasonChange | src/components/interactions/InteractionForm.tsx:91-107 | the selection is toggled and only the reasons message is cleared |
| InteractionForm.FormState.Validate | src/components/interactions/InteractionForm.tsx:109-124 | the messages are exactly the missing fields' required-field messages, and success means the form is complete |
| InteractionForm.FormState.HandleSubmit | src/components/interactions/InteractionForm.tsx:126-160 | an incomplete form is rejected and an unknown person gets "Invalid person selected", with the store unchanged in both cases; otherwise the interaction, with the person's name and the shown duration, updates the edited id or is added at the head of the log |
| StudentForm.MergeRoundTrip | src/components/students/StudentForm.tsx:26-35 | an unchanged form submits the same student; a merge keeps the id and takes every field from the form |
| StudentForm.MissingIffSpaceOnly | src/components/students/StudentForm.tsx:49-58 | a required field fails exactly when it is white space only; notes are never checked |
| StudentForm.GradeChoicesPass | src/components/students/StudentForm.tsx:145-151 | every offered grade passes the check, and the empty "Select Grade" entry fails it |
| StudentForm.AllChecksReport | src/components/students/StudentForm.tsx:49-58 | the messages are keyed exactly by the missing fields, with their required-field texts |
| StudentForm.ApplyOnlyThatField | src/components/students/StudentForm.tsx:37-47 | a change alters only its own input |
| StudentForm.FormState.constructor | src/components/students/StudentForm.tsx:16-23 | the form starts empty, with no messages |
| StudentForm.FormState.LoadForEdit | src/components/students/StudentForm.tsx:26-35 | in edit mode with a student, the form shows that student's fields |
| StudentForm.FormState.HandleChange | src/components/students/StudentForm.tsx:37-47 | the input takes the value and only its message is cleared |
| StudentForm.FormState.Validate | src/components/students/StudentForm.tsx:49-58 | one message per blank required field, and success exactly when there is none |
| StudentForm.FormState.HandleSubmit | src/components/students/StudentForm.tsx:60-75 | an invalid form changes nothing; otherwise the edited student is merged under its id, renaming their interactions, or a new student is appended |
| ContactForm.MergeRoundTrip | src/components/contacts/ContactForm.tsx:29-41 | a merge keeps the id and takes every field from the form; a contact with all optional fields set survives an unchanged submit |
| ContactForm.EmailPatternIff | src/components/contacts/ContactForm.tsx:63-65 | the pattern accepts exactly local@domain.suffix with three non-empty parts free of white space |
| ContactForm.EmailPatternExamples | src/components/contacts/ContactForm.tsx:63-65 | "a@b.c" passes; "a@bc", "a@.c" and "a @b.c" fail |
| ContactForm.EmailOptional | src/components/contacts/ContactForm.tsx:63-65 | an empty e-mail is never an error; a non-empty one is exactly when it fails the pattern |
| ContactForm.AllChecksReport | src/components/contacts/ContactForm.tsx:55-69 | the messages are keyed exactly by the failing fields, with their texts |
| ContactForm.ApplyOnlyThatField | src/components/contacts/ContactForm.tsx:43-53 | a text change alters only its own input and keeps the type |
| ContactForm.FormState.constructor | src/components/contacts/ContactForm.tsx:16-26 | the form starts as an empty Parent contact, with no messages |
| ContactForm.FormState.LoadForEdit | src/components/contacts/ContactForm.tsx:29-41 | in edit mode with a contact, the form shows its fields, with missing optional ones as empty text |
| ContactForm.FormState.HandleChange | src/components/contacts/ContactForm.tsx:43-53 | the input takes the value and only its message is cleared |
| ContactForm.FormState.Validate | src/components/contacts/ContactForm.tsx:55-69 | one message per failing field, and success exactly when there is none |
| ContactForm.FormState.HandleSubmit | src/components/contacts/ContactForm.tsx:71-86 | an invalid form changes nothing; otherwise the edited contact is merged under its id, renaming their interactions, or a new contact is appended |
| InteractionDetail.DisplayHourRange | src/components/interactions/InteractionDetail.tsx:40-46 | the 12-hour clock shows 1-12 and agrees with the hour modulo 12 |
| InteractionDetail.TwelveHourRoundTrip | src/components/interactions/InteractionDetail.tsx:40-46 | for hours 0-23, the shown hour and AM/PM give the hour back |
| InteractionDetail.FormatClockText | src/components/interactions/InteractionDetail.tsx:40-46 | a clock text formats as its 12-hour hour, the padded minutes and AM/PM |
| InteractionDetail.FollowUpTextIff | src/components/interactions/InteractionDetail.tsx:140-160 | the page shows a scheduled follow-up exactly when one is needed |
| InteractionDetail.ViewLooksUp | src/components/interactions/InteractionDetail.tsx:17-32 | "Interaction not found." exactly when no interaction has the id; otherwise the first with it, with its notes or "No notes provided." |
| InteractionDetail.HandleDelete | src/components/interactions/InteractionDetail.tsx:34-37 | the interaction is removed by id and the statistics stay consistent |
| ReasonManagement.NoGroupsIffNoReasons | src/components/admin/ReasonManagement.tsx:139-142 | the empty-catalogue message shows exactly when there are no reasons |
| ReasonManagement.ReasonManager.constructor | src/components/admin/ReasonManagement.tsx:8-15 | the screen starts with no form, no edit, no pending delete and empty fields |
| ReasonManagement.ReasonManager.StartAdding | src/components/admin/ReasonManagement.tsx:66-70 | the add form opens empty, with no edit in progress |
| ReasonManagement.ReasonManager.HandleEdit | src/components/admin/ReasonManagement.tsx:32-39 | the form shows the reason's fields and edits its id, not adding |
| ReasonManagement.ReasonManager.HandleSubmit | src/components/admin/ReasonManagement.tsx:17-30 | an edit replaces the reason by id, otherwise the fields are appended as a new reason; the form then closes with empty fields |
| ReasonManagement.ReasonManager.Cancel | src/components/admin/ReasonManagement.tsx:117-120 | the form closes with empty fields |
| ReasonManagement.ReasonManager.CancelEdit | src/components/admin/ReasonManagement.tsx:46-49 | the edit ends with empty fields; the form stays open only when adding |
| ReasonManagement.ReasonManager.AskDelete | src/components/admin/ReasonManagement.tsx:166 | a confirmation is pending for that reason |
| ReasonManagement.ReasonManager.DismissDelete | src/components/admin/ReasonManagement.tsx:221 | no confirmation is pending |
| ReasonManagement.ReasonManager.HandleDelete | src/components/admin/ReasonManagement.tsx:41-44 | the reason is removed by id and the confirmation closes |
| Types.FindReason | src/contexts/AppContext.tsx:195-197 | the found reason is the first in the catalogue with that id; none exactly when no reason has it |

## Left out

- Rendering, styling, icons, charts (the report and dashboard charts, FullCalendar) and navigation (`navigate`, back links, the `from=calendar` return) are not modelled: they compute nothing the model's properties are about.
- Authentication and the auth context (`AuthContext.tsx`, `ProtectedRoute.tsx`) are not part of this model; profiles are modelled only as a store collection.
- `Math.random` becomes nondeterministic choices within the generator's ranges, and `generateId` becomes an id parameter. Uniqueness of generated ids is not modelled.
- JavaScript `Date`: today, the report's default range and the list's week/month limits are parameters, and dates are compared as ISO strings. Time zones, `setHours(23, 59, 59)` and locale date formatting (`toLocaleDateString`) are not modelled.
- Times are "digits:digits" texts. NaN from malformed times is not modelled: the store's add and update require clock texts, and form time inputs are "HH:MM" or empty.
- InteractionDetail.FormatTime: an empty hour text, which is NaN in the source, reads as hour 0 and so shows "12 AM" like midnight.
- CategoryCounts.Tally and ReasonGroups.Grouped: a reason category whose text is the name of an inherited JavaScript object property (such as "constructor" or "toString") is not modelled; in the source the count for it becomes a string and the grouping throws, while the model counts and groups it like any other category.
- AdminReports.FilteredKeeps: a date text is either empty (a cleared date input, an invalid `Date` that excludes everything) or an ISO date; other malformed date texts are not modelled.
- ReasonGroups.GroupedSpec: object key order (`Object.entries`) of the groups is not modelled; the model states the grouping as a map.
- String handling is ASCII: lower-casing, `\s` and `trim` cover ASCII white space only, with no Unicode case folding.
- The interaction form's `type` query parameter is an optional interaction type; arbitrary strings cast to the type are not modelled.
- The contact type is an enumeration, so ContactForm's "Type is required" check can never fire, and the model never produces that message.
- The browser's `required` attributes on inputs (which block submission before `validate` runs) are not modelled; the model validates exactly as `validate` does.
- The reason form's submit does not check for empty category or subcategory in the source; the model adds or updates whatever fields are shown, as the source does.
- `cancelEdit` in ReasonManagement.tsx is defined but never used by the screen; it is modelled as ReasonManager.CancelEdit.
- A route id is optional text; an empty id counts as absent (JavaScript truthiness).
- Persistence: the store lives only in memory, as in the source.
