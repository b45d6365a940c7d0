# MindCare core, modelled in Dafny

MindCare is a React front end for a student mental-health service. This
project models the decision logic and state updates inside its components:

- the PHQ-9 depression questionnaire: the answer map, the score, the severity
  bands, the submit gate and the score thresholds of the results page;
- the support chat: crisis-keyword detection, the reply policy, and the
  message log with its crisis alert;
- booking a counselor: the half-hour slots, the counselor filter, and the
  appointment list with booking, deferred confirmation and cancelling;
- the counselor's dashboard: appointment actions by id, session notes, the
  buttons each status offers, and the pending count;
- the four sign-up forms (student, counselor, college, peer volunteer):
  validation, per-input error clearing, the availability grid, and submit;
- the peer-volunteer chat and its online/offline status;
- the resource library's search, filters and lookups;
- the translation lookup of the language provider;
- the sidebar's role menus, and the shell's role and tab routing;
- the severity colour and label of the analytics dashboard.

Each component is one module. Component state that the source updates in
place is a `class`; its methods are specified against functions, and lemmas
state the properties of those functions. Shared string and sequence helpers
(ASCII `trim` and case, `includes`, string order, `split`, `parseInt`,
`filter`, de-duplication) are in `Text` and `Seqs`.

Data files that are not part of this model become parameters: the PHQ-9
questions and band table, the chatbot texts and keyword lists, and the
counselors, resources and volunteers. Timers become explicit steps such as
`DeliverReply` and `ConfirmDeferred`. `Math.random()` becomes an index
chosen by the caller. `Date.now()`, the weekday and the time of day are
arguments.

## Model

| member | source | states |
|---|---|---|
| Phq9Assessment.Localized | src/components/Assessment/PHQ9Assessment.tsx:40-50 | Question and option text is the Hindi or Tamil field for those languages and the English text otherwise, with no fallback for an empty field |
| Phq9Assessment.AnswerKeys | src/components/Assessment/PHQ9Assessment.tsx:34 | `Object.keys(answers)` has one key per entry; only its length is read |
| Phq9Assessment.Get | src/components/Assessment/PHQ9Assessment.tsx:257 | Looking up a question id gives None exactly when the id has no entry, and otherwise the value of an entry with that id |
| Phq9Assessment.Upsert | src/components/Assessment/PHQ9Assessment.tsx:12-17 | After recording an answer, the key list is the same if the id was answered, and otherwise the old keys followed by the id |
| Phq9Assessment.UpsertWellKeyed | src/components/Assessment/PHQ9Assessment.tsx:12-17 | Recording an answer keeps one entry per question id |
| Phq9Assessment.UpsertGet | src/components/Assessment/PHQ9Assessment.tsx:12-17 | After recording, the id reads back the new value and every other id reads back what it held before |
| Phq9Assessment.ScoreUpsert | src/components/Assessment/PHQ9Assessment.tsx:19-21 | Recording an answer changes the score by the new value minus the old value of that question (0 if unanswered) |
| Phq9Assessment.Score | src/components/Assessment/PHQ9Assessment.tsx:19-21 | With every value in 0..3, the score lies between 0 and three times the number of answers |
| Phq9Assessment.ScoreConstant | src/components/Assessment/PHQ9Assessment.tsx:19-21 | When all answers carry the same value, the score is that value times the number of answers |
| Phq9Assessment.CompleteScoreRange | src/components/Assessment/PHQ9Assessment.tsx:19-21 | Nine answers with values in 0..3 score between 0 and 27 |
| Phq9Assessment.FirstMatchFrom | src/components/Assessment/PHQ9Assessment.tsx:24-30 | The scan from a position returns the first band at or after it whose inclusive range holds the score, or None when no band from there holds it |
| Phq9Assessment.FirstMatch | src/components/Assessment/PHQ9Assessment.tsx:24-30 | The first band in declared order that holds the score; None exactly when no band holds it |
| Phq9Assessment.BandOf | src/components/Assessment/PHQ9Assessment.tsx:31 | `scoring[key]` is the band of an entry with that key, or None when no entry has the key |
| Phq9Assessment.Classify | src/components/Assessment/PHQ9Assessment.tsx:23-31 | The severity is the first band that holds the score, or the `minimal` entry when none does; the result is always an entry of the table |
| Phq9Assessment.GetSeverityInfo | src/components/Assessment/PHQ9Assessment.tsx:23-31 | The loop that returns at the first matching band computes `Classify` |
| Phq9Assessment.BandsOrdered | src/components/Assessment/PHQ9Assessment.tsx:23-31 | In a well-formed table every band lies wholly below every later band |
| Phq9Assessment.Covered | src/components/Assessment/PHQ9Assessment.tsx:23-31 | In a well-formed table every score up to the maximum, from the start of a band on, lies in that band or a later one |
| Phq9Assessment.Partition | src/components/Assessment/PHQ9Assessment.tsx:23-31 | In a well-formed table each score in 0..max lies in exactly one band, the one the lookup finds |
| Phq9Assessment.Monotonic | src/components/Assessment/PHQ9Assessment.tsx:23-31 | A higher score never gets an earlier (less severe) band |
| Phq9Assessment.StandardIsWellFormed | src/components/Assessment/PHQ9Assessment.tsx:23-31 | The standard PHQ-9 ranges 0-4, 5-9, 10-14, 15-19 and 20-27 form a well-formed table |
| Phq9Assessment.StandardKey | src/components/Assessment/PHQ9Assessment.tsx:23-31 | The standard key of a score is one of the five severity keys |
| Phq9Assessment.StandardClassification | src/components/Assessment/PHQ9Assessment.tsx:23-31 | With the standard table, every score from 0 to 27 gets the key of its standard range and a band |
| Phq9Assessment.FallbackIsMinimal | src/components/Assessment/PHQ9Assessment.tsx:31 | A score outside every band gets the `minimal` entry, which with the standard table is the first one |
| Phq9Assessment.Results | src/components/Assessment/PHQ9Assessment.tsx:104-188 | "Get Immediate Help" shows iff score >= 10; the crisis panel shows iff score >= 15; each advice block shows iff the score is in its range; the last block reads "severe" iff score >= 20 |
| Phq9Assessment.ExactlyOneAdvice | src/components/Assessment/PHQ9Assessment.tsx:104-161 | Every non-negative score gets exactly one advice block, and a negative one gets none |
| Phq9Assessment.CrisisPanelImpliesHelp | src/components/Assessment/PHQ9Assessment.tsx:179-188 | The crisis panel never appears without the immediate-help button |
| Phq9Assessment.AdviceMatchesBand | src/components/Assessment/PHQ9Assessment.tsx:104-161 | With the standard table, the advice block is the one for the band's key |
| Phq9Assessment.AllThreesScenario | src/components/Assessment/PHQ9Assessment.tsx:19-31 | Nine answers of 3 score 27, fall in `severe`, and show the urgent block worded "severe", the button and the crisis panel |
| Phq9Assessment.AllZerosScenario | src/components/Assessment/PHQ9Assessment.tsx:19-31 | Nine answers of 0 score 0, fall in `minimal`, and show the minimal block without the button or the panel |
| Phq9Assessment.PanelStyle | src/components/Assessment/PHQ9Assessment.tsx:68-72 | Green, yellow and orange bands get their own panel style, and any other colour tag gets the red one |
| Phq9Assessment.Without | src/components/Assessment/PHQ9Assessment.tsx:34 | Removing a value keeps exactly the other members, and shortens the sequence when the value occurs |
| Phq9Assessment.DistinctWithin | src/components/Assessment/PHQ9Assessment.tsx:34 | A duplicate-free sequence drawn from another is no longer than it |
| Phq9Assessment.CountGateMeansComplete | src/components/Assessment/PHQ9Assessment.tsx:33-38 | With one entry per real question, the answer count is at most the question count, and equals it iff every question is answered |
| Phq9Assessment.SubmitCaption | src/components/Assessment/PHQ9Assessment.tsx:300-308 | The button reads "Complete Assessment" when enabled, and otherwise "Answer N more questions" with N = questions - answers |
| Phq9Assessment.SubmitEnabled | src/components/Assessment/PHQ9Assessment.tsx:302 | With one entry per real question, the count-based gate is open exactly when every question is answered |
| Phq9Assessment.DisabledCaptionCountsUp | src/components/Assessment/PHQ9Assessment.tsx:300-308 | While the button is disabled, at least one question is unanswered, and the caption names that count |
| Phq9Assessment.Assessment.constructor | src/components/Assessment/PHQ9Assessment.tsx:8-10 | Starts with no answers and both flags false |
| Phq9Assessment.Assessment.AnswerChange | src/components/Assessment/PHQ9Assessment.tsx:12-17 | Upserts the answer, keeps the flags, reads back the new value for that id and the old values for all others, and adjusts the score by the difference |
| Phq9Assessment.Assessment.Submit | src/components/Assessment/PHQ9Assessment.tsx:33-38 | Sets both flags when the answer count equals the question count; otherwise nothing changes |
| Phq9Assessment.Assessment.TakeAgain | src/components/Assessment/PHQ9Assessment.tsx:168 | Hides the results and keeps the answers and the completed flag |
| AIChat.TextFor | src/components/Chat/AIChat.tsx:57 | `table[language] \|\| table.english`: the language's text when present and non-empty, and the English text otherwise |
| AIChat.KeywordsFor | src/components/Chat/AIChat.tsx:47 | The language's keyword list when present, even if empty, and the English list only when it is missing |
| AIChat.SomeKeywordIn | src/components/Chat/AIChat.tsx:49 | `keywords.some(...)` holds iff the lower-cased message contains some lower-cased keyword |
| AIChat.Detect | src/components/Chat/AIChat.tsx:46-50 | Detection holds iff the lower-cased message contains the lower-cased form of some keyword in the language's list |
| AIChat.DetectIgnoresCase | src/components/Chat/AIChat.tsx:48-49 | Messages that differ only in letter case are detected alike |
| AIChat.DetectInContext | src/components/Chat/AIChat.tsx:49 | A message that triggers detection still triggers it with any text before and after it |
| AIChat.EmptyKeywordMatchesAll | src/components/Chat/AIChat.tsx:49 | An empty keyword in the active list makes every message a crisis |
| AIChat.ReplyPool | src/components/Chat/AIChat.tsx:61-89 | The pool has 4 Hindi or 4 Tamil replies, or 5 English ones whose first is the default reply (with English fallback) |
| AIChat.BotReply | src/components/Chat/AIChat.tsx:52-89 | A crisis gets the language's crisis text; any other message gets the pool entry at the chosen index |
| AIChat.Greeting | src/components/Chat/AIChat.tsx:24-32 | The first message is a bot message with id "1" and the greeting in the chat's language, else English |
| AIChat.ReplyMessage | src/components/Chat/AIChat.tsx:109-116 | The reply has type crisis iff detection fires, is never a user message, and carries the `generateBotResponse` text |
| AIChat.ChatSession.constructor | src/components/Chat/AIChat.tsx:24-35 | The log is exactly the greeting, the input is empty, and the alert and typing flags are off |
| AIChat.ChatSession.SetInput | src/components/Chat/AIChat.tsx:33 | Sets the input and changes nothing else |
| AIChat.ChatSession.SwitchLanguage | src/components/Chat/AIChat.tsx:23 | Changes the language and keeps the log and the flags |
| AIChat.ChatSession.SendMessage | src/components/Chat/AIChat.tsx:92-105 | Blank input changes nothing; otherwise one user message with the untrimmed input is appended, the input is cleared, typing starts and a reply is pending; the alert is untouched |
| AIChat.ChatSession.DeliverReply | src/components/Chat/AIChat.tsx:108-120 | Appends exactly the oldest pending message's reply, raises the alert iff it was a crisis and otherwise leaves it as it was, and stops typing |
| AIChat.ChatSession.Dismiss | src/components/Chat/AIChat.tsx:155 | Lowers the alert and changes nothing else |
| AIChat.ChatSession.SendEnabled | src/components/Chat/AIChat.tsx:269 | The send button is enabled iff the trimmed input is non-empty and no reply is being typed |
| CounselorBooking.HalfHourSlots | src/components/Student/CounselorBooking.tsx:77-80 | 2·(end-start) slots (none if end <= start); slot i is hour start + i/2, on the hour for even i and at half past for odd i |
| CounselorBooking.SlotsFor | src/components/Student/CounselorBooking.tsx:65-83 | No slots without both parsed hours; otherwise 2·(end − start) slots (none when end <= start), slot i being hour start + i/2, on the hour for even i and at half past for odd i |
| CounselorBooking.GetAvailableTimeSlots | src/components/Student/CounselorBooking.tsx:65-83 | The guards and loop compute `SlotsFor` |
| CounselorBooking.PushSlots | src/components/Student/CounselorBooking.tsx:77-80 | The push loop computes `HalfHourSlots` |
| CounselorBooking.SlotLess | src/components/Student/CounselorBooking.tsx:78-79 | Zero-padded slots of an earlier hour, or of the same hour on the hour before half past, compare smaller as strings |
| CounselorBooking.SlotsIncreasing | src/components/Student/CounselorBooking.tsx:77-80 | For hours in 0..99 the slots are strictly increasing as strings |
| CounselorBooking.HourIgnoresMinutes | src/components/Student/CounselorBooking.tsx:74-75 | `parseInt("HH:MM".split(':')[0])` is HH, whatever the minutes |
| CounselorBooking.SlotsFromTimes | src/components/Student/CounselorBooking.tsx:65-83 | A day with bounds "HH:MM" gets the half-hour slots between the two hours, ignoring the minutes |
| CounselorBooking.FilteredCounselors | src/components/Student/CounselorBooking.tsx:86-100 | A counselor is listed iff approved and matching the search, specialization and institution filters, in original order |
| CounselorBooking.UnfilteredListsApproved | src/components/Student/CounselorBooking.tsx:86-100 | With an empty search and both filters `all`, the list is exactly the approved counselors, in order |
| CounselorBooking.AllSpecializations | src/components/Student/CounselorBooking.tsx:104 | The flattened list holds exactly the specializations of some counselor |
| CounselorBooking.AvailableSpecializations | src/components/Student/CounselorBooking.tsx:103-105 | Each specialization of some counselor appears exactly once, and nothing else appears |
| CounselorBooking.SetStatusById | src/components/Student/CounselorBooking.tsx:141-149 | Same length; the entries with the id get the status, and every other entry is unchanged |
| CounselorBooking.ConfirmAsWritten | src/components/Student/CounselorBooking.tsx:129-137 | The confirmation as written: each entry with the new id becomes that entry with status confirmed, whatever its status, and the others are unchanged |
| CounselorBooking.CancelUndoneByConfirm | src/components/Student/CounselorBooking.tsx:129-149 | A booking cancelled before its confirmation delay ends is confirmed anyway |
| CounselorBooking.ConfirmIfPending | src/components/Student/CounselorBooking.tsx:129-137 | The corrected confirmation: only a still-pending entry with the id becomes confirmed, and all else is unchanged |
| CounselorBooking.CancelSurvivesConfirm | src/components/Student/CounselorBooking.tsx:129-149 | With the correction a cancellation stands, and an untouched booking still ends confirmed |
| CounselorBooking.Booking.constructor | src/components/Student/CounselorBooking.tsx:54-59 | No appointments, nothing selected, the form closed, type video |
| CounselorBooking.Booking.OpenBooking | src/components/Student/CounselorBooking.tsx:54-56 | Selects the counselor and opens the form; the appointments are unchanged |
| CounselorBooking.Booking.ChooseSlot | src/components/Student/CounselorBooking.tsx:57-59 | Sets date, time and type; the appointments are unchanged |
| CounselorBooking.Booking.Book | src/components/Student/CounselorBooking.tsx:108-126 | Without a counselor, date and time nothing changes; otherwise one pending appointment is appended, the form closes and the counselor, date and time are cleared |
| CounselorBooking.Booking.ConfirmDeferred | src/components/Student/CounselorBooking.tsx:129-137 | The oldest confirmation applies `ConfirmIfPending` for its id; nothing else changes |
| CounselorBooking.Booking.ConfirmDeferredAsWritten | src/components/Student/CounselorBooking.tsx:129-137 | The oldest confirmation as the code writes it: `ConfirmAsWritten` for its id; nothing else changes |
| CounselorBooking.Booking.CancelAppointment | src/components/Student/CounselorBooking.tsx:141-149 | Cancels the appointments with the id; nothing else changes |
| CounselorBooking.CancelInsideDelay | src/components/Student/CounselorBooking.tsx:108-149 | Booking and then cancelling before the delay ends: the page as written ends with the session confirmed, the corrected page with it cancelled |
| CounselorBooking.CancelWithdrawn | src/components/Student/CounselorBooking.tsx:345 | The Cancel button, shown only while pending, disappears once the appointment is cancelled or its confirmation runs |
| CounselorDashboard.ActionStatus | src/components/Dashboard/CounselorDashboard.tsx:259-262 | accept gives confirmed, complete gives completed, and reject or cancel give cancelled (each an iff) |
| CounselorDashboard.ApplyAction | src/components/Dashboard/CounselorDashboard.tsx:256-265 | The new status; `confirmedAt` is set only on accept and `completedAt` only on complete; all other fields are kept |
| CounselorDashboard.ActionById | src/components/Dashboard/CounselorDashboard.tsx:253-268 | Same length and order; the entries with the id get the action, and every other entry is unchanged |
| CounselorDashboard.NotesById | src/components/Dashboard/CounselorDashboard.tsx:272-279 | Same length; the entries with the id get the notes, and every other entry is unchanged |
| CounselorDashboard.ActionsOffered | src/components/Dashboard/CounselorDashboard.tsx:515-558 | Accept and Reject iff pending, Complete iff confirmed, never Cancel |
| CounselorDashboard.ReachableTransitions | src/components/Dashboard/CounselorDashboard.tsx:515-558 | The buttons can only move pending to confirmed or cancelled, and confirmed to completed |
| CounselorDashboard.FinalStatuses | src/components/Dashboard/CounselorDashboard.tsx:515-558 | Completed, cancelled and no-show offer no status change |
| CounselorDashboard.NotesOffered | src/components/Dashboard/CounselorDashboard.tsx:547 | Notes are offered only on appointments that offer no status change |
| CounselorDashboard.PendingCount | src/components/Dashboard/CounselorDashboard.tsx:353 | The badge is the length of the filter for pending appointments |
| CounselorDashboard.ActionOnAbsentId | src/components/Dashboard/CounselorDashboard.tsx:253-268 | An action on an id that no appointment has changes nothing |
| CounselorDashboard.AcceptMovesOne | src/components/Dashboard/CounselorDashboard.tsx:465-471 | With distinct ids, accepting a pending request lowers the pending count by one and raises the confirmed count by one |
| CounselorDashboard.StatusStyle | src/components/Dashboard/CounselorDashboard.tsx:285-300 | Each of the five statuses has its colour and background, and anything else is gray |
| CounselorDashboard.PriorityColor | src/components/Dashboard/CounselorDashboard.tsx:303-314 | high, medium and low are red, yellow and green, and anything else is gray |
| CounselorDashboard.Dashboard.constructor | src/components/Dashboard/CounselorDashboard.tsx:253 | Holds the given appointments with the notes form closed |
| CounselorDashboard.Dashboard.AppointmentAction | src/components/Dashboard/CounselorDashboard.tsx:253-268 | The list becomes `ActionById`; the form state is unchanged |
| CounselorDashboard.Dashboard.OpenNotes | src/components/Dashboard/CounselorDashboard.tsx:550-551 | Selects the appointment and opens the form; the list is unchanged |
| CounselorDashboard.Dashboard.SaveNotes | src/components/Dashboard/CounselorDashboard.tsx:272-282 | The list becomes `NotesById`, the form closes and the selection is cleared |
| CounselorDashboard.Dashboard.CloseNotes | src/components/Dashboard/CounselorDashboard.tsx:888-889 | Closes the form and keeps the list and the selection |
| FormRules.MessageText | src/components/Auth/StudentRegistration.tsx:113 | The text under an input is empty only for a cleared message |
| FormRules.RequiredTrimmed | src/components/Auth/StudentRegistration.tsx:51 | `!value.trim()`: the required message iff the value is blank |
| FormRules.RequiredRaw | src/components/Auth/StudentRegistration.tsx:59 | `!value`: the required message iff the value is empty, so whitespace counts as an answer |
| FormRules.DotFromMatches | src/components/Auth/StudentRegistration.tsx:53 | The search for the '.' succeeds iff a match with that '@' exists from that position on |
| FormRules.AtFromMatches | src/components/Auth/StudentRegistration.tsx:53 | The search for the '@' succeeds iff a match exists with its '@' from that position on |
| FormRules.EmailPattern | src/components/Auth/StudentRegistration.tsx:53 | `/\S+@\S+\.\S+/.test` holds iff some '@' and '.' positions form a match |
| FormRules.EmailPatternInContext | src/components/Auth/StudentRegistration.tsx:53 | The pattern is unanchored: text before and after a match keeps it |
| FormRules.EmailPatternNotBlank | src/components/Auth/StudentRegistration.tsx:52-53 | A matching text is never blank, so the two email messages exclude each other |
| FormRules.EmailPatternNeedsAtThenDot | src/components/Auth/StudentRegistration.tsx:53 | A match has an '@' with a '.' after it |
| FormRules.EmailError | src/components/Auth/StudentRegistration.tsx:52-53 | "required" iff blank; "invalid" iff not blank and no match; no error iff the pattern matches |
| FormRules.PasswordError | src/components/Auth/StudentRegistration.tsx:54-55 | "required" iff empty; "too short" iff 1 to 5 characters; no error iff at least 6 characters |
| FormRules.ConfirmError | src/components/Auth/StudentRegistration.tsx:56 | An error iff the two entries differ, whatever the password checks say |
| FormRules.WithCheck | src/components/Auth/StudentRegistration.tsx:51 | One validation line sets its field's message when it fails, and leaves every other entry as it was |
| FormRules.CollectStep | src/components/Auth/StudentRegistration.tsx:49-60 | Running one more check extends the record of the checks before it |
| FormRules.CollectRecords | src/components/Auth/StudentRegistration.tsx:49-60 | Checks on distinct fields leave an entry for exactly the failing checks, each with its message |
| FormRules.RecordsEmpty | src/components/Auth/StudentRegistration.tsx:62-63 | The record is empty iff every check passes |
| FormRules.RecordsUnique | src/components/Auth/StudentRegistration.tsx:49-60 | Checks on distinct fields determine the record uniquely |
| FormRules.ClearError | src/components/Auth/StudentRegistration.tsx:32-37 | Editing an input clears its error only if one is set; the key set and every other entry stay |
| FormRules.AvailabilityNameParts | src/components/Auth/CounselorRegistration.tsx:37-38 | The input `availability_<day>_<bound>` names that day and bound |
| FormRules.AvailabilityNameWithoutBound | src/components/Auth/CounselorRegistration.tsx:38 | A name with no bound part writes the key "undefined" of the day |
| FormRules.AvailabilitySlot | src/components/Auth/CounselorRegistration.tsx:38 | The day and bound read from an input name contain no underscore: later pieces are dropped, a missing one is "undefined" |
| FormRules.SetAvailability | src/components/Auth/CounselorRegistration.tsx:39-48 | Sets only that day's bound; the day's other bound and all other days are kept, and the day is added if missing |
| FormRules.EmptyWeek | src/components/Auth/CounselorRegistration.tsx:21-29 | Seven days, each with an empty start and end |
| FormRules.BlankFields | src/components/Auth/StudentRegistration.tsx:9-20 | Every input of the form starts empty |
| StudentRegistration.FieldError | src/components/Auth/StudentRegistration.tsx:51-60 | The message one input gets; only checked inputs can get one |
| StudentRegistration.Checks | src/components/Auth/StudentRegistration.tsx:51-60 | The eight checks, in source order, on distinct fields |
| StudentRegistration.ChecksPassIffComplete | src/components/Auth/StudentRegistration.tsx:51-60 | Every check passes iff name, roll number, college and course are non-blank, year is non-empty, the email matches, the password has 6+ characters and equals the confirmation |
| StudentRegistration.ValidIffComplete | src/components/Auth/StudentRegistration.tsx:62-63 | The record is empty iff the application is complete |
| StudentRegistration.UncheckedInput | src/components/Auth/StudentRegistration.tsx:51-60 | The phone never gets an error, and editing it changes no check |
| StudentRegistration.Registration.constructor | src/components/Auth/StudentRegistration.tsx:9-22 | All inputs empty and no errors |
| StudentRegistration.Registration.InputChange | src/components/Auth/StudentRegistration.tsx:24-38 | Sets only the named input and clears only its error |
| StudentRegistration.Registration.Validate | src/components/Auth/StudentRegistration.tsx:48-64 | The errors become exactly the failing checks' messages; the result is true iff there are none; the inputs are unchanged |
| StudentRegistration.Registration.Submit | src/components/Auth/StudentRegistration.tsx:66-74 | Goes back iff the application is complete |
| CounselorRegistration.FieldError | src/components/Auth/CounselorRegistration.tsx:77-86 | The message one input gets; only checked inputs can get one |
| CounselorRegistration.Checks | src/components/Auth/CounselorRegistration.tsx:77-86 | The eight checks, in source order, on distinct fields |
| CounselorRegistration.ChecksPassIffComplete | src/components/Auth/CounselorRegistration.tsx:77-86 | Every check passes iff name, qualification, specialization and licence are non-blank, experience is non-empty, and the email and password rules hold |
| CounselorRegistration.ValidIffComplete | src/components/Auth/CounselorRegistration.tsx:88-89 | The record is empty iff the application is complete |
| CounselorRegistration.UncheckedInput | src/components/Auth/CounselorRegistration.tsx:77-86 | Phone, institution name and bio never get an error, and editing them changes no check |
| CounselorRegistration.Registration.constructor | src/components/Auth/CounselorRegistration.tsx:9-33 | All inputs empty, the empty week, and no errors |
| CounselorRegistration.Registration.InputChange | src/components/Auth/CounselorRegistration.tsx:35-64 | An availability cell sets only its day's bound; any other input sets only its text and clears only its error |
| CounselorRegistration.Registration.Validate | src/components/Auth/CounselorRegistration.tsx:74-90 | The errors become exactly the failing checks' messages; the result is true iff there are none |
| CounselorRegistration.Registration.Submit | src/components/Auth/CounselorRegistration.tsx:92-99 | Goes back iff the application is complete |
| CollegeRegistration.FieldError | src/components/Auth/CollegeRegistration.tsx:57-72 | The message one input gets; only checked inputs can get one |
| CollegeRegistration.Checks | src/components/Auth/CollegeRegistration.tsx:57-72 | The fourteen checks, in source order, on distinct fields |
| CollegeRegistration.ChecksPassIffComplete | src/components/Auth/CollegeRegistration.tsx:57-72 | Every check passes iff the eight trimmed fields are non-blank, the three raw ones non-empty, and the email and password rules hold |
| CollegeRegistration.ValidIffComplete | src/components/Auth/CollegeRegistration.tsx:74-75 | The record is empty iff the application is complete |
| CollegeRegistration.UncheckedInput | src/components/Auth/CollegeRegistration.tsx:57-72 | The website never gets an error, and editing it changes no check |
| CollegeRegistration.Registration.constructor | src/components/Auth/CollegeRegistration.tsx:9-28 | All inputs empty and no errors |
| CollegeRegistration.Registration.InputChange | src/components/Auth/CollegeRegistration.tsx:30-44 | Sets only the named input and clears only its error |
| CollegeRegistration.Registration.Validate | src/components/Auth/CollegeRegistration.tsx:54-76 | The errors become exactly the failing checks' messages; the result is true iff there are none |
| CollegeRegistration.Registration.Submit | src/components/Auth/CollegeRegistration.tsx:78-85 | Goes back iff the application is complete |
| PeerVolunteerRegistration.FieldError | src/components/Auth/PeerVolunteerRegistration.tsx:67-75 | The message one input gets; only checked inputs can get one |
| PeerVolunteerRegistration.Checks | src/components/Auth/PeerVolunteerRegistration.tsx:67-75 | The seven checks, in source order, on distinct fields |
| PeerVolunteerRegistration.ChecksPassIffComplete | src/components/Auth/PeerVolunteerRegistration.tsx:67-75 | Every check passes iff name, college and course are non-blank, year is non-empty, and the email and password rules hold |
| PeerVolunteerRegistration.ValidIffComplete | src/components/Auth/PeerVolunteerRegistration.tsx:77-78 | The record is empty iff the application is complete |
| PeerVolunteerRegistration.UncheckedInput | src/components/Auth/PeerVolunteerRegistration.tsx:64-79 | Phone, roll number, languages and bio never get an error, and editing them changes no check |
| PeerVolunteerRegistration.Registration.constructor | src/components/Auth/PeerVolunteerRegistration.tsx:9-32 | All inputs empty, the empty week, and no errors |
| PeerVolunteerRegistration.Registration.InputChange | src/components/Auth/PeerVolunteerRegistration.tsx:34-62 | An availability cell sets only its day's bound; any other input sets only its text and clears only its error |
| PeerVolunteerRegistration.Registration.Validate | src/components/Auth/PeerVolunteerRegistration.tsx:64-79 | The errors become exactly the failing checks' messages; the result is true iff there are none |
| PeerVolunteerRegistration.Registration.Submit | src/components/Auth/PeerVolunteerRegistration.tsx:81-87 | Goes back iff the application is complete |
| PeerVolunteers.Greeting | src/components/Student/PeerVolunteers.tsx:16-21 | The opening message has id 1, comes from the volunteer and names them |
| PeerVolunteers.Sent | src/components/Student/PeerVolunteers.tsx:28-34 | Appends one user message with the text and id = old length + 1, keeping the log before it |
| PeerVolunteers.ReplyAsWritten | src/components/Student/PeerVolunteers.tsx:38-53 | The reply as written: a volunteer message from the pool with id = the log length at send time + 2 |
| PeerVolunteers.ReplyIdCollides | src/components/Student/PeerVolunteers.tsx:47 | Two sends before the first reply: the reply shares id 3 with the second user message |
| PeerVolunteers.Reply | src/components/Student/PeerVolunteers.tsx:38-53 | The corrected reply: a volunteer message with the chosen canned text and id = length of the log it joins + 1 |
| PeerVolunteers.NumberedIdsDistinct | src/components/Student/PeerVolunteers.tsx:28-34 | A log numbered in order has distinct ids |
| PeerVolunteers.NumberingKept | src/components/Student/PeerVolunteers.tsx:13-53 | Greeting, sending and the corrected reply keep the log numbered in order |
| PeerVolunteers.PeerChat.constructor | src/components/Student/PeerVolunteers.tsx:13 | No volunteer selected, chat closed, empty input and log |
| PeerVolunteers.PeerChat.StartChat | src/components/Student/PeerVolunteers.tsx:13-24 | Selects the volunteer, opens the chat, and replaces the log with the greeting |
| PeerVolunteers.PeerChat.SetMessage | src/components/Student/PeerVolunteers.tsx:205 | Sets the input and changes nothing else |
| PeerVolunteers.PeerChat.SendMessage | src/components/Student/PeerVolunteers.tsx:26-35 | Blank input changes nothing; otherwise `Sent` with the untrimmed input, the input cleared and one reply pending |
| PeerVolunteers.PeerChat.DeliverReply | src/components/Student/PeerVolunteers.tsx:38-53 | Appends the corrected reply and keeps the log numbered in order |
| PeerVolunteers.PeerChat.DeliverReplyAsWritten | src/components/Student/PeerVolunteers.tsx:38-53 | The oldest reply as the code writes it: `ReplyAsWritten` numbered from the log length recorded when its message was sent |
| PeerVolunteers.PeerChat.CloseChat | src/components/Student/PeerVolunteers.tsx:166 | Hides the chat and keeps the log and the selection |
| PeerVolunteers.QuickSends | src/components/Student/PeerVolunteers.tsx:25-53 | Two sends before the first reply: as written the reply repeats the id 3 of the second message; corrected, the log stays numbered 1 to 4 |
| PeerVolunteers.AvailabilityStatus | src/components/Student/PeerVolunteers.tsx:57-68 | Online iff today has both bounds and start <= now <= end as strings; the colour is green iff online, and gray when offline |
| PeerVolunteers.InvertedWindowOffline | src/components/Student/PeerVolunteers.tsx:62-68 | A window that ends before it starts is never online |
| PeerVolunteers.OnlineAtOpening | src/components/Student/PeerVolunteers.tsx:62-68 | A window that does not end before it starts is online at its start time |
| PeerVolunteers.WeekdayName | src/components/Student/PeerVolunteers.tsx:59 | `toLocaleDateString` with a `weekday` style throws a RangeError unless the style is long, short or narrow; long gives the English day name |
| PeerVolunteers.AvailabilityAsWritten | src/components/Student/PeerVolunteers.tsx:57-68 | As written: the status of the day named by the style `lowercase`, or the error that call throws |
| PeerVolunteers.AvailabilityAlwaysThrows | src/components/Student/PeerVolunteers.tsx:59 | The style `lowercase` throws a RangeError on every day |
| PeerVolunteers.AvailabilityCorrected | src/components/Student/PeerVolunteers.tsx:57-68 | Corrected: always a status, the one for the schedule key of the current day |
| PeerVolunteers.LowerWeekdayIsKey | src/components/Student/PeerVolunteers.tsx:59-62 | The lower-cased long day name is the schedule key of that day |
| ResourceLibrary.FilteredResources | src/components/Resources/ResourceLibrary.tsx:25-32 | A resource is kept iff it matches the search, category and type, in original order |
| ResourceLibrary.NoFilterKeepsAll | src/components/Resources/ResourceLibrary.tsx:25-32 | An empty search with both filters `all` keeps every resource, in order |
| ResourceLibrary.SearchIgnoresCase | src/components/Resources/ResourceLibrary.tsx:26-27 | Search terms that differ only in case select the same resources |
| ResourceLibrary.SearchIgnoresLocalizedTitles | src/components/Resources/ResourceLibrary.tsx:26-27 | The localized titles never affect the search |
| ResourceLibrary.ResourceTitle | src/components/Resources/ResourceLibrary.tsx:34-38 | The Hindi or Tamil title when the language matches and the title is non-empty, and the English title otherwise |
| ResourceLibrary.TypeIcon | src/components/Resources/ResourceLibrary.tsx:40-47 | Play iff video, book iff guide, and a document for every other type |
| ResourceLibrary.TypeColor | src/components/Resources/ResourceLibrary.tsx:49-56 | Red, blue and green for video, guide and article (each an iff), and gray exactly for other types |
| ResourceLibrary.DifficultyColor | src/components/Resources/ResourceLibrary.tsx:58-65 | Green, yellow and red for the three levels (each an iff), and gray exactly for other values |
| ResourceLibrary.ShownTags | src/components/Resources/ResourceLibrary.tsx:177 | The first min(3, n) tags |
| ResourceLibrary.ActionLabel | src/components/Resources/ResourceLibrary.tsx:200 | "Watch" iff the type is video, and "Read" otherwise |
| ResourceLibrary.ShowsNoResults | src/components/Resources/ResourceLibrary.tsx:212 | The notice shows iff no resource matches |
| LanguageContext.TablesShareKeys | src/contexts/LanguageContext.tsx:11-69 | The English, Hindi and Tamil tables have the same keys in the same order |
| LanguageContext.Lookup | src/contexts/LanguageContext.tsx:77 | `table[key]` on a plain object: an own entry iff the key is in the table (with that entry's text), otherwise the inherited Object.prototype member iff the key names one (`constructor`, `toString`, `__proto__`, …), otherwise undefined |
| LanguageContext.Translate | src/contexts/LanguageContext.tsx:76-78 | The table's text if present and non-empty; an inherited member, which is truthy, passed through as it is; else the fallback if non-empty, else the key. The result is text iff the key is in the table or names no inherited member, and that text is never empty for a non-empty key |
| LanguageContext.T | src/contexts/LanguageContext.tsx:76-78 | A key no table has and no inherited member names gives the non-empty fallback, else the key; a key naming an Object.prototype member gives that member; the result is text iff the key names none, and never empty text for a non-empty key |
| LanguageContext.PrototypeNamesUntranslated | src/contexts/LanguageContext.tsx:11-69 | No translation key names an Object.prototype member, so own entries never shadow an inherited one |
| LanguageContext.InheritedKeysPassThrough | src/contexts/LanguageContext.tsx:77 | In every language `t('toString')`, `t('constructor', 'Build')` and `t('__proto__', 'Proto')` return the inherited member, not the fallback or the key |
| LanguageContext.TextOf | src/components/Layout/Sidebar.tsx:29-54 | For the dotted keys the menu translates, `t` gives text, never empty, because no inherited member has a dot in its name |
| LanguageContext.InitialContext | src/contexts/LanguageContext.tsx:74 | The provider starts in English |
| LanguageContext.SetLanguage | src/contexts/LanguageContext.tsx:74 | `setLanguage` replaces the language |
| LanguageContext.UseLanguage | src/contexts/LanguageContext.tsx:87-93 | An error with the provider message iff there is no provider, and otherwise the provider's value |
| Sidebar.MenuItems | src/components/Layout/Sidebar.tsx:27-62 | Every menu starts with the dashboard entry, titled through `t` |
| Sidebar.MenuIdsByRole | src/components/Layout/Sidebar.tsx:32-61 | The student, counselor and admin menus have their listed ids in order, and any other role or no user has only the dashboard |
| Sidebar.MenuIdsDistinct | src/components/Layout/Sidebar.tsx:27-62 | No menu lists an id twice |
| Sidebar.MenuTitlesNonEmpty | src/components/Layout/Sidebar.tsx:27-62 | Every entry has a non-empty title, whatever the dictionary holds |
| Sidebar.AdminMenusAgree | src/components/Layout/Sidebar.tsx:51-59 | The college and system administrators get the same menu |
| Sidebar.SelectItem | src/components/Layout/Sidebar.tsx:97-100 | A click makes the item's id the active tab and closes the menu |
| Sidebar.SelectHighlightsOnlyClicked | src/components/Layout/Sidebar.tsx:92 | After a click, exactly the clicked entry is highlighted |
| App.RenderContent | src/App.tsx:34-52 | Dashboard goes to the admin view iff the role is an admin; assessment, chat, resources and analytics route by tab alone; every other tab is the placeholder |
| App.AppContent | src/App.tsx:19-32 | The loading view iff loading; the login view iff not loading and no user; otherwise the routed content |
| App.InitialShell | src/App.tsx:16-17 | The dashboard tab, menu closed |
| App.OpenMenu | src/App.tsx:56 | The menu opens and the tab is kept |
| App.FirstViewIsDashboard | src/App.tsx:16-40 | A signed-in user first sees the dashboard tab: administrators the admin dashboard, every other role (counselors and volunteers included) the student dashboard |
| App.PlaceholderIds | src/App.tsx:49-50 | Only appointments, students, users and crisis-alerts can be placeholders |
| App.MenuRouting | src/App.tsx:34-52 | Following a role's own menu, an entry shows the placeholder iff it is one of that role's placeholder entries |
| App.ClickThenRender | src/App.tsx:58-65 | Clicking a menu entry and rendering shows the view of that entry's tab |
| AdminDashboard.SeverityColor | src/components/Analytics/AdminDashboard.tsx:40-49 | The five keys get their fixed colours, and exactly the other keys get gray |
| AdminDashboard.SeverityColorsDistinct | src/components/Analytics/AdminDashboard.tsx:40-49 | No two severity keys share a colour |
| AdminDashboard.FirstIndexOf | src/components/Analytics/AdminDashboard.tsx:52 | The position of the first occurrence of a character, or None when it is absent |
| AdminDashboard.ReplaceFirst | src/components/Analytics/AdminDashboard.tsx:52 | `replace('_', ' ')` changes only the first underscore and keeps the length |
| AdminDashboard.CapitalizeFrom | src/components/Analytics/AdminDashboard.tsx:52 | `/\b\w/g` to upper case: each character that starts a word is upper-cased and the others are kept, with the same length |
| AdminDashboard.SeverityLabel | src/components/Analytics/AdminDashboard.tsx:51-53 | The label has the key's length, and each character is the space-replaced key's, upper-cased exactly at word starts |
| AdminDashboard.OneWordLabel | src/components/Analytics/AdminDashboard.tsx:51-53 | A one-word lower-case key is shown capitalised |
| AdminDashboard.UnderscoreKeyLabel | src/components/Analytics/AdminDashboard.tsx:51-53 | `a_b` is shown as two capitalised words |
| AdminDashboard.SecondUnderscoreKept | src/components/Analytics/AdminDashboard.tsx:52 | In `a_b_c` only the first underscore becomes a space, and `c` is not capitalised |
| AdminDashboard.ModeratelySevereLabel | src/components/Analytics/AdminDashboard.tsx:51-53 | `moderately_severe` reads "Moderately Severe" |
| Text.Trim | src/components/Chat/AIChat.tsx:93 | `trim` gives the empty string iff the input is blank, and otherwise a slice with no whitespace at either end |
| Text.Lower | src/components/Chat/AIChat.tsx:48 | `toLowerCase` maps each character, keeping the length |
| Text.Contains | src/components/Chat/AIChat.tsx:49 | `includes` holds iff the needle occurs at some index |
| Text.LowerUpToCase | src/components/Chat/AIChat.tsx:48 | Strings that differ only in case have the same lower-case form |
| Text.ContainsInContext | src/components/Chat/AIChat.tsx:49 | An occurrence survives text added before and after |
| Text.LexLess | src/components/Student/PeerVolunteers.tsx:64 | String `<` never holds between equal strings, and a prefix is below exactly the longer strings that extend it |
| Text.NotLessIsAtLeast | src/components/Student/PeerVolunteers.tsx:64 | `a >= b` on strings, `!(a < b)`, is `b <= a` |
| Text.Pad2 | src/components/Student/CounselorBooking.tsx:78 | `padStart(2, '0')` of an hour in 0..99 is its two decimal digits |
| Text.ParseInt | src/components/Student/CounselorBooking.tsx:74 | `parseInt` gives a number only when the text has a digit |
| Text.ParseIntDigits | src/components/Student/CounselorBooking.tsx:74 | After blank text and at most one sign, the maximal run of digits is the value, negated after a minus |
| Text.ParseIntNaN | src/components/Student/CounselorBooking.tsx:74 | NaN when no digit follows the blank text and the optional sign |
| Text.ParsePad2 | src/components/Student/CounselorBooking.tsx:74 | A zero-padded hour followed by a non-digit parses back to the hour |
| Text.Split | src/components/Auth/CounselorRegistration.tsx:38 | `split` gives at least one piece; the first is the text before the first separator, and no piece holds a separator |
| Seqs.Filter | src/components/Resources/ResourceLibrary.tsx:25 | `filter` keeps exactly the elements that pass, as an order-preserving subsequence |
| Seqs.FilterLength | src/components/Dashboard/CounselorDashboard.tsx:353 | The length of a filter is the number of passing positions |
| Seqs.Dedup | src/components/Student/CounselorBooking.tsx:103-105 | `Array.from(new Set(s))` holds each element of `s` exactly once, in order of first appearance |

## Left out

- JSX, styling other than the colour lookups, icons, modals and `alert()` calls are not modelled. The notes text that `CounselorDashboard.tsx` reads from the DOM is a parameter.
- Timers are explicit steps: `AIChat.ChatSession.DeliverReply`, `PeerVolunteers.PeerChat.DeliverReply` (and its `DeliverReplyAsWritten`) and `CounselorBooking.Booking.ConfirmDeferred` (and its `ConfirmDeferredAsWritten`) each fire the oldest pending timer. Timing, and interleavings with stale closures, are not modelled.
- `Math.random()` is an index chosen by the caller, within the pool.
- `Date.now()` ids, ISO and locale timestamps, and deriving the weekday and time of day are arguments or left out. The chat messages carry no timestamp.
- `trim`, `\s`, `\S`, `\b\w`, `toLowerCase` and `toUpperCase` are modelled for ASCII. Unicode whitespace, case mapping and UTF-16 string lengths are not.
- `Text.ParseInt` reads decimal digits after leading whitespace and an optional sign. Hexadecimal prefixes and the other radix rules of `parseInt` are not modelled; the source only parses `HH` hours.
- The JSON data files (PHQ-9 questions and bands, chatbot texts and keywords, counselors, resources, volunteers) are parameters, with a well-formedness predicate for the PHQ-9 band table.
- Input names are the `FormRules.FieldName` enumeration plus an availability target. An input name outside the form's fields is not modelled. File inputs (`handleFileChange`) and their uploads are left out.
- The `min`/`max` attributes of the established-year input are HTML constraints, not validation. `CollegeRegistration.Checks` only requires the year to be non-empty, as `validateForm` does.
- `AIChat.ChatSession.SendMessage` and `PeerVolunteers.PeerChat.SendMessage` test `IsBlank`, which `Text.Trim` proves equivalent to an empty `trim()` result.
- `src/contexts/AuthContext.tsx`, the login and registration choosers, and the fixture-only dashboards (student, volunteer, institution admin, landing page, navbar) are not part of this model. The analytics percentages of `AdminDashboard.tsx` use floating point and are left out.
- Apart from the three findings below, where the intent and the code differ the model follows the code:
  - "Take Assessment Again" keeps the answers.
  - The submit gate compares the number of answers with the number of questions.
  - Administrators reach `AdminDashboard` only through the dashboard and analytics tabs.
  - Their other menu entries show the placeholder.
- PeerVolunteers.PeerChat.DeliverReply: numbers the reply from the log it joins, as the correction of the reply-id finding does. `PeerVolunteers.PeerChat.DeliverReplyAsWritten` fires the same timer with the code's numbering, from the log length that `SendMessage` recorded.
- CounselorBooking.Booking.ConfirmDeferred: confirms only a still-pending appointment, as the correction of the confirmation finding does. `CounselorBooking.Booking.ConfirmDeferredAsWritten` fires the same timer as the code does.
- PeerVolunteers.AvailabilityStatus: takes the day key as an argument. As written, the source never reaches the comparison, because the weekday lookup before it throws (see the findings). `PeerVolunteers.AvailabilityCorrected` supplies the key of the current day.
- LanguageContext.T: an inherited Object.prototype member that `t` returns is carried by its name only. What a component would render from that function or object is not modelled. Every key the menus translate is dotted, so `LanguageContext.TextOf` shows they always get text.
- Phq9Assessment.AnswerKeys: does not model the order of `Object.keys`, which lists integer keys in ascending order. Only the number of keys is read.

## Findings

| source | as written | input that shows it | evidently intended | confidence | as-written member | corrected member |
|---|---|---|---|---|---|---|
| src/components/Student/CounselorBooking.tsx:129-137 | The deferred confirmation sets the booked appointment to `confirmed` whatever its status at that moment | Book a session, then press Cancel within the one-second delay: the appointment is cancelled, then confirmed | Only a still-pending appointment is confirmed, so a cancellation stands | medium, not executed | CounselorBooking.CancelUndoneByConfirm | CounselorBooking.CancelSurvivesConfirm |
| src/components/Student/PeerVolunteers.tsx:47 | The reply id is `chatMessages.length + 2`, using the length captured when the message was sent | Greeting, then send "hi" and "still there?" before the first reply arrives: the first reply gets id 3, the same as the second user message, so two bubbles share a React key | The reply is numbered one past the log it joins, so ids stay distinct | high, not executed | PeerVolunteers.ReplyIdCollides | PeerVolunteers.NumberingKept |
| src/components/Student/PeerVolunteers.tsx:59 | `toLocaleDateString('en-US', { weekday: 'lowercase' })` passes a `weekday` style that the `Intl.DateTimeFormat` options do not accept | Any render of the volunteer list: `getAvailabilityStatus` runs for every card (line 92) and the call throws a RangeError | Ask for the long English day name and lower-case it, giving the schedule keys `monday` … `sunday` | high, not executed | PeerVolunteers.AvailabilityAlwaysThrows | PeerVolunteers.AvailabilityCorrected |
