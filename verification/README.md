# 7DAY team events — a Dafny model of the site's decision logic

7DAY is a Next.js site where Australian companies find and book a venue for a
team event. Most of it is presentation. This project models the part that
decides things:

- the company quiz: a five-question wizard and the venue matcher it runs;
- the booking form: its validator, its edit handler, its cost estimate, and
  the gate in front of the database insert;
- the fixed venue catalog and its lookup by id;
- the string helpers of `utils.ts`;
- the access and routing rules of `auth.ts`, and the branch sign-up takes;
- the keyword responder of the chat widget and its send guard;
- what the booking confirmation writes: the iCalendar event, its timestamps,
  its download name, and the cost line of the shared summary;
- the bulk employee upload of the admin portal.

Everything is immutable datatypes and pure functions over `seq<char>` and
unbounded integers. Only the email pattern also has a one-pass `method`
(`EmailPattern.CheckEmail`). The clock, the database and the browser do not
appear: the current time, an insert's outcome and quiz answers are
parameters.

Modules, one file each:

- `Wrappers`: `Option`.
- `Sequences`: `Filter` and `FlatMap` with their append laws.
- `Strings`: the JavaScript string operations the code uses.
  - `split` on one character, `join`, `trim`, `includes`, `startsWith`;
  - `replace` of a one-character string, which removes the first occurrence only;
  - ASCII `toLowerCase`/`toUpperCase`;
  - decimal `parseInt` and `String(n)`.
- `EmailPattern`: the regular expression `/^[^\s@]+@[^\s@]+\.[^\s@]+$/`.
- `Catalog`: `experiences.ts`.
- `QuizAnswers`, `Matching` and `QuizWizard`: `CompanyQuiz.tsx`.
- `Booking`: `SimpleBookingModal.tsx`.
- `Utils`: `utils.ts`.
- `Auth`: `auth.ts`.
- `Chat`: `AIChatWidget.tsx`.
- `Calendar`: `BookingSuccessState.tsx`.
- `Admin`: `admin/page.tsx`.

JavaScript semantics are written out explicitly:

- `\s` and `trim` use ECMAScript's full whitespace set: WhiteSpace plus LineTerminator.
- `parseInt` skips leading whitespace, takes an optional sign, then reads the longest run of decimal digits. With no digits the result is `NaN`, modelled as `None`.
- An array's `undefined` element joins as the empty string.
- The matcher's `price / (max_guests * 0.7)` comparisons are done exactly, by cross-multiplying integers. `Matching.PerPersonCrossMultiplied` proves they agree with the real-number quotient. A venue with no guests gets JavaScript's `Infinity`/`NaN` outcomes.

Where the code and the surrounding descriptions disagree, the model follows the code:

- **Initial team size from the quiz.** The booking modal seeds its team size
  from the quiz's bracket (`'11-20'` gives 11, not the 15 a story in
  `src/components/booking/SimpleBookingModal.stories.tsx` claims).
  `CompanyQuiz.tsx` never passes its answers to the modal (lines 276-288), so
  in the shipped quiz the team size starts at 8. `Booking.InitialForm`
  models both cases.
- **iCalendar output.** The event file uses the layout of sections 3.4 and
  3.6.1 of RFC 5545 and the UTC form of section 3.3.5, but joins its lines
  with a bare line feed and carries no UID or DTSTAMP. The model writes what
  the code emits.

## Model

| member | source | states |
|---|---|---|
| Catalog.GetAllExperiences | src/lib/experiences.ts:69-71 | the catalog, unchanged and in order: six venues with pairwise-distinct ids, positive prices and positive capacities |
| Catalog.CatalogWellFormed | src/lib/experiences.ts:2-63 | the catalog has six entries with distinct ids, every price and every capacity positive, so no estimate divides by zero |
| Catalog.FindById | src/lib/experiences.ts:65-67 | `find` returns nothing exactly when no entry carries the id, otherwise the first entry carrying it |
| Catalog.GetExperienceById | src/lib/experiences.ts:65-67 | a venue is returned exactly when some catalog entry has the id, and it is a catalog entry with that id |
| Catalog.GetByIdIsUnique | src/lib/experiences.ts:65-67 | looking up any catalog entry's id returns that very entry |
| Catalog.RegionTags | src/lib/experiences.ts:7-62 | the first four locations contain "NSW", only the fifth contains "VIC", so none contains both |
| Catalog.ExecutiveTitles | src/lib/experiences.ts:5-55 | Bondi Beach's title contains "Executive", and the titles of the three venues under $1000 a night do not |
| Catalog.CelebrationVenues | src/lib/experiences.ts:11-61 | of the six amenity lists exactly two mention "Bar" or "Catering": the Sydney Harbour charter's ("Premium Catering") and the Melbourne rooftop's ("Premium Bar") |
| EmailPattern.Matches | src/components/booking/SimpleBookingModal.tsx:61-63 | the regular expression as a cut of the text into three runs free of whitespace and '@', joined by '@' and '.'; its meaning is EmailPattern.MatchesIffWellShaped |
| EmailPattern.MatchesIffWellShaped | src/components/booking/SimpleBookingModal.tsx:61-63 | the pattern accepts exactly the text with no whitespace, exactly one '@', a non-empty local part, and a domain with a '.' that has a character on each side |
| EmailPattern.CheckEmail | src/components/booking/SimpleBookingModal.tsx:61-63 | a single left-to-right scan decides the pattern exactly |
| QuizAnswers.ParseBounds | src/components/quiz/CompanyQuiz.tsx:132 | each budget piece is read by `parseInt` after its first '+' is removed |
| QuizAnswers.ParseTeamSize | src/components/quiz/CompanyQuiz.tsx:128 | `parseInt` of the text before the first '-'; its results are stated by QuizAnswers.LeadingNumber and QuizAnswers.TeamNumParses |
| QuizAnswers.ParseBudget | src/components/quiz/CompanyQuiz.tsx:132 | one parsed bound per '-'-separated piece of the text |
| QuizAnswers.TeamNumParses | src/components/quiz/CompanyQuiz.tsx:128 | parsing a team-size option yields the bracket's smallest head count ('50+' gives 50), and an empty answer yields NaN |
| QuizAnswers.BudgetRangeParses | src/components/quiz/CompanyQuiz.tsx:132 | a two-number budget option parses to its two bounds, '600+' to its lower bound alone, and an empty answer to a single NaN |
| QuizAnswers.LeadingNumber | src/components/quiz/CompanyQuiz.tsx:128 | the number before a '-' is read back, whatever follows |
| QuizAnswers.TwoNumbers | src/components/quiz/CompanyQuiz.tsx:132 | "lo-hi" parses to the two numbers |
| QuizAnswers.OpenNumber | src/components/quiz/CompanyQuiz.tsx:132 | "n+" parses to the single number n |
| Matching.PerPersonCrossMultiplied | src/components/quiz/CompanyQuiz.tsx:133-134 | the integer comparisons agree with comparing the exact per-person price price/(capacity x 0.7) against the bound, in both directions |
| Matching.TeamPointsByBracket | src/components/quiz/CompanyQuiz.tsx:128-129 | the team rule gives +2 exactly when the bracket's smallest head count fits the venue |
| Matching.BudgetPointsByBracket | src/components/quiz/CompanyQuiz.tsx:132-134 | the budget rule read off the parsed text equals the rule stated on the bracket's bounds |
| Matching.BudgetRuleOnPrice | src/components/quiz/CompanyQuiz.tsx:132-134 | a two-number bracket gives +2 iff the per-person price is at most its upper bound; '600+' gives +2 iff the per-person price is at least 600 |
| Matching.TeamPoints | src/components/quiz/CompanyQuiz.tsx:127-129 | 0 or 2, and 2 only when a team size was chosen |
| Matching.BudgetPoints | src/components/quiz/CompanyQuiz.tsx:131-134 | 0 or 2, and 2 only when a budget was chosen |
| Matching.LocationPoints | src/components/quiz/CompanyQuiz.tsx:136-139 | at most 2, and nothing for 'remote' or no answer; venue by venue in Matching.LocationPointsAtVenue |
| Matching.EventPoints | src/components/quiz/CompanyQuiz.tsx:141-142 | at most 1, and 1 only for a celebration; venue by venue in Matching.EventPointsAtVenue |
| Matching.VibePoints | src/components/quiz/CompanyQuiz.tsx:141-143 | at most 1, and 1 only for the luxurious vibe; venue by venue in Matching.VibePointsAtVenue |
| Matching.LocationPointsAtVenue | src/components/quiz/CompanyQuiz.tsx:136-139 | at each catalog venue: 'sydney' earns 2 at the four NSW venues and nowhere else, 'melbourne' 2 at the Melbourne rooftop and nowhere else, 'anywhere' 1 at every venue, any other answer nothing |
| Matching.EventPointsAtVenue | src/components/quiz/CompanyQuiz.tsx:141-142 | at each catalog venue: a celebration earns 1 at the Sydney Harbour charter and the Melbourne rooftop and nothing at the other four; any other event type nothing |
| Matching.VibePointsAtVenue | src/components/quiz/CompanyQuiz.tsx:141-143 | at each catalog venue: the luxurious vibe earns 1 at the three venues over $1000 a night (Sydney Harbour, Bondi Beach, Melbourne) and nothing at the other three, since the one "Executive" title is Bondi Beach's; any other vibe nothing |
| Matching.Score | src/components/quiz/CompanyQuiz.tsx:124-145 | at most 8, and an unanswered quiz scores nothing at any venue |
| Matching.ScoreBounds | src/components/quiz/CompanyQuiz.tsx:125-143 | the score is the sum of the five independent rules and never exceeds 8 |
| Matching.Qualifying | src/components/quiz/CompanyQuiz.tsx:124-146 | the filter keeps exactly the venues scoring at least 3, drawn from the input |
| Matching.QualifyingAppend | src/components/quiz/CompanyQuiz.tsx:124-146 | filtering keeps input order: the survivors of a concatenation are the survivors of each part, in turn |
| Matching.Match | src/components/quiz/CompanyQuiz.tsx:148 | at most three venues, each scoring at least 3, the first min(3, k) of the k qualifying venues |
| Matching.MatchIsCatalogPrefix | src/components/quiz/CompanyQuiz.tsx:124-148 | a qualifying venue with k < 3 qualifying venues before it sits at position k of the result, and once three venues have qualified the result is those three; there is no re-sort by score |
| Matching.RetreatMatch | src/components/quiz/CompanyQuiz.tsx:124-148 | eleven to twenty people, a retreat, $200-400 a head in Sydney match Blue Mountains, Sydney Harbour and Hunter Valley, in that order |
| Matching.ClientMatch | src/components/quiz/CompanyQuiz.tsx:124-148 | for a client dinner the result lists Sydney Harbour before Melbourne even though Melbourne scores higher |
| Matching.RankLabel | src/components/quiz/CompanyQuiz.tsx:201-219 | the badge is "Top Pick" (and the "best match" banner shows) exactly at index 0, whatever that venue's score; otherwise "Option " followed by the 1-based position |
| QuizWizard.QuestionAt | src/components/quiz/CompanyQuiz.tsx:66-117 | each of the five steps shows a different question, and the question at a step is the one belonging to that step |
| QuizWizard.UpdateQuizData | src/components/quiz/CompanyQuiz.tsx:152-154 | the chosen question gets the choice, and the other four answers are unchanged |
| QuizWizard.Settle | src/components/quiz/CompanyQuiz.tsx:120-150 | the matcher runs exactly when the step reaches the results view, and it changes only the matched list |
| QuizWizard.NextStep | src/components/quiz/CompanyQuiz.tsx:156-160 | one step forward below the results view, never past it; answers and matches are kept |
| QuizWizard.PrevStep | src/components/quiz/CompanyQuiz.tsx:162-166 | one step back, never below the first question; answers and matches are kept |
| QuizWizard.RestartQuiz | src/components/quiz/CompanyQuiz.tsx:168-178 | back to step 0 with all five answers empty and no matches |
| QuizWizard.Step | src/components/quiz/CompanyQuiz.tsx:152-178 | one user event moves at most one step, or back to step 0; choosing an option never moves; restarting at the results view clears the matches |
| QuizWizard.StepPreservesValid | src/components/quiz/CompanyQuiz.tsx:152-178 | every user event keeps the step within 0..5, the answers up to the current step filled in, and the matches equal to the matcher's output at the results view |
| QuizWizard.RunPreservesValid | src/components/quiz/CompanyQuiz.tsx:152-178 | any sequence of events from a valid state ends in a valid state |
| QuizWizard.InitialValid | src/components/quiz/CompanyQuiz.tsx:52-60 | the quiz starts in a valid state |
| QuizWizard.ResultsNeedAllAnswers | src/components/quiz/CompanyQuiz.tsx:353-354 | whatever the user does, the step stays within 0..5, and the results view is reached only with all five questions answered and shows the match of those answers |
| QuizWizard.AnsweringEverything | src/components/quiz/CompanyQuiz.tsx:152-160 | answering the five questions in order, with Next after each, reaches the results view holding those answers and their match |
| QuizWizard.AnswerThenNext | src/components/quiz/CompanyQuiz.tsx:152-160 | choosing an option of the question on screen and pressing Next records it and advances one step |
| QuizWizard.NextAtLastQuestion | src/components/quiz/CompanyQuiz.tsx:120-149 | Next at the last answered question shows the results with the matcher's output |
| QuizWizard.ResultsAreTheCatalogMatch | src/components/quiz/CompanyQuiz.tsx:120-149 | in the shipped quiz the results view lists at most three catalog venues, each scoring at least 3 |
| Booking.InitialForm | src/components/booking/SimpleBookingModal.tsx:46-55 | the team size is the quiz bracket's smallest head count, or 8 without quiz data; the text fields and the date start empty |
| Booking.InitialTeamSizeParsed | src/components/booking/SimpleBookingModal.tsx:51 | that team size is what `parseInt` reads before the bracket's '-' |
| Booking.Validate | src/components/booking/SimpleBookingModal.tsx:72-97 | each of the four checks adds its field, with its exact message, iff that field fails; phone, alternate date, team size and requests never produce an error |
| Booking.ValidIffComplete | src/components/booking/SimpleBookingModal.tsx:72-97 | the error map is empty exactly when the form is complete, stated field by field |
| Booking.ChecksIndependent | src/components/booking/SimpleBookingModal.tsx:72-97 | whether a field has an error, and its message, depend on that field alone |
| Booking.IsDateAvailable | src/components/booking/SimpleBookingModal.tsx:65-70 | a date is available iff it parsed and lies at least fourteen days of milliseconds after now |
| Booking.CutoffBoundary | src/components/booking/SimpleBookingModal.tsx:65-70 | a date exactly fourteen days ahead passes, one millisecond earlier fails |
| Booking.UpdateFormData | src/components/booking/SimpleBookingModal.tsx:145-151 | the edited field takes the new value, every other field keeps its value, and only the edited field's error stops showing |
| Booking.CeilDiv | src/components/booking/SimpleBookingModal.tsx:154 | the number of capacity-sized groups covers the team, and one group fewer would not |
| Booking.CeilDivLeast | src/components/booking/SimpleBookingModal.tsx:154 | that count is the least count covering the team |
| Booking.EstimateMonotone | src/components/booking/SimpleBookingModal.tsx:154 | a larger team never costs less |
| Booking.EstimatedCost | src/components/booking/SimpleBookingModal.tsx:154 | no team costs nothing, a team that fits the venue pays exactly one night's price, and a larger team at least two |
| Booking.CeilDivCases | src/components/booking/SimpleBookingModal.tsx:154 | no head count needs no group, one that fits needs exactly one, a larger one at least two |
| Booking.Submit | src/components/booking/SimpleBookingModal.tsx:99-126 | an insert happens exactly when the form is complete; a rejection carries the non-empty error map; the inserted row copies the form and carries status "pending" and the estimate |
| Utils.Cn | src/lib/utils.ts:4-6 | the truthy arguments joined by single spaces; stated by Utils.KeptCons, Utils.KeptMembers, Utils.CnDropsFalsy and Utils.CnSplit |
| Utils.KeptCons | src/lib/utils.ts:4-6 | the kept names of an argument list are the first argument's contribution (its name when truthy, nothing when falsy) followed by the rest's: order is kept and each truthy argument gives exactly its one name |
| Utils.KeptMembers | src/lib/utils.ts:4-6 | the kept class names are non-empty, each was passed, and every truthy argument is kept |
| Utils.CnDropsFalsy | src/lib/utils.ts:4-6 | removing a falsy argument ('', null, undefined, false) anywhere leaves the result unchanged |
| Utils.CnSplit | src/lib/utils.ts:4-6 | when no class name holds a space, splitting the result on spaces gives back the kept names in order |
| Utils.GetInitials | src/lib/utils.ts:34-41 | at most two characters, none of them a lower-case letter |
| Utils.Heads | src/lib/utils.ts:37 | one character per word, the word's first |
| Utils.FirstLettersOfWords | src/lib/utils.ts:36-38 | the joined `word[0]`s are exactly the first characters of the non-empty words, in order |
| Utils.FirstLettersDropsEmpty | src/lib/utils.ts:36-38 | an empty word anywhere in the list leaves the first letters unchanged |
| Utils.GetInitialsOfWords | src/lib/utils.ts:34-41 | the initials are the upper-cased first characters of the first min(2, n) of the n non-empty space-separated words, in order |
| Utils.LeadingSpaceIgnored | src/lib/utils.ts:34-41 | a leading space makes an empty first word, which contributes nothing |
| Utils.DoubledSpaceIgnored | src/lib/utils.ts:34-41 | a doubled space between two parts gives the same initials as a single space |
| Utils.TrailingSpaceIgnored | src/lib/utils.ts:34-41 | a space at the end changes nothing |
| Utils.TwoWordInitials | src/lib/utils.ts:34-41 | two plain words give their two upper-cased first letters |
| Utils.IsValidEmail | src/lib/utils.ts:46-49 | the same pattern as the booking form; its meaning is EmailPattern.MatchesIffWellShaped |
| Utils.IsValidEmailAgreesWithForm | src/lib/utils.ts:46-49 | the helper and the booking form's email check agree on every address, the empty one included: the form flags the email field exactly when the helper rejects the address |
| Utils.GetCompanyDomain | src/lib/utils.ts:54-56 | the domain holds no '@' and is empty when the address has no '@' |
| Utils.DomainBetween | src/lib/utils.ts:54-56 | the domain is the text between the first and the second '@' |
| Utils.IsPersonalEmail | src/lib/utils.ts:61-72 | the lower-cased domain is a listed webmail provider; stated by Utils.PersonalIffDomain and Utils.PersonalCaseInsensitive |
| Utils.PersonalIffDomain | src/lib/utils.ts:61-72 | an address is personal iff its lower-cased domain is one of the six listed providers |
| Utils.PersonalCaseInsensitive | src/lib/utils.ts:61-72 | case in the address never changes the verdict |
| Utils.TruncateText | src/lib/utils.ts:77-80 | text that fits is unchanged; longer text becomes a prefix of itself plus "...", of length maxLength + 3 |
| Auth.DetectUserType | src/lib/auth.ts:23-25 | 'employee' exactly when the address is personal, otherwise 'company' |
| Auth.CompanyDomainDetected | src/lib/auth.ts:23-25 | an address at an unlisted domain is a company address, in any case |
| Auth.GetRedirectPath | src/lib/auth.ts:30-48 | no user goes to '/'; a user's non-empty intended path other than '/' is honoured; otherwise admins go to '/admin' and employees to '/app' |
| Auth.CanAccessRoute | src/lib/auth.ts:53-78 | exact public paths first, then no user is refused, then the '/admin' prefix needs an admin, then '/app' and '/bookings' prefixes; stated by the Auth rows below |
| Auth.PublicOpenToAll | src/lib/auth.ts:55-58 | the four exact public paths are open to everybody, signed in or not |
| Auth.AnonymousOnlyPublic | src/lib/auth.ts:55-63 | without a user, a path is open iff it is one of the four public paths |
| Auth.AdminPrefixAdminOnly | src/lib/auth.ts:66-69 | a path under '/admin' is open to a user iff the user is an admin |
| Auth.MemberPrefixesOpen | src/lib/auth.ts:72-75 | paths under '/app' or '/bookings' are open to every signed-in user |
| Auth.AdminSeesAllEmployeeSees | src/lib/auth.ts:53-78 | every path an employee may open, an admin may open |
| Auth.DefaultRedirectAccessible | src/lib/auth.ts:30-78 | where a user is sent by default, they may go |
| Auth.IntendedPathNotChecked | src/lib/auth.ts:37-39 | an employee asking for '/admin' is sent there and refused |
| Auth.SignUpBranch | src/lib/auth.ts:83-124 | the company branch is taken iff the address is not personal and a company name is given; otherwise the lookup uses the address's domain |
| Auth.WebmailNeverCreatesCompany | src/lib/auth.ts:83-124 | a webmail address never creates a company, whatever name is given |
| Chat.GetAIResponse | src/components/ai/AIChatWidget.tsx:44-55 | the text of Chat.Answer's reply to the message |
| Chat.FirstHit | src/components/ai/AIChatWidget.tsx:47-54 | the reply is one of the table's replies or the default; a table reply belongs to the first key from the start position that occurs; and, when no table reply is the default, the default comes exactly when no key occurs |
| Chat.Answer | src/components/ai/AIChatWidget.tsx:44-55 | a message gets the default reply exactly when no key of the table occurs in its lower-cased text; otherwise it gets the reply of the first key, in table order, that occurs |
| Chat.ReplyOfFirstKey | src/components/ai/AIChatWidget.tsx:13-20 | the reply belongs to the first key, in table order, that occurs in the lower-cased message |
| Chat.NoKeyDefault | src/components/ai/AIChatWidget.tsx:53-54 | a message containing no key gets the default reply |
| Chat.BudgetBeforeHelp | src/components/ai/AIChatWidget.tsx:47-51 | a message mentioning "budget" never gets the help reply, even when it asks for help |
| Chat.CaseInsensitive | src/components/ai/AIChatWidget.tsx:45 | lower-casing the message first changes no reply |
| Chat.SendMessage | src/components/ai/AIChatWidget.tsx:57-69 | a blank input changes nothing; any other input appends one user message with the text as typed, clears the input and shows the typing indicator |
| Chat.DeliverReply | src/components/ai/AIChatWidget.tsx:72-82 | the assistant's reply to the sent text is appended after the existing messages and the typing indicator goes off |
| Chat.BlankInputIgnored | src/components/ai/AIChatWidget.tsx:58 | input that is empty after trimming leaves the conversation unchanged |
| Calendar.NextDay | src/components/booking/BookingSuccessState.tsx:35-37 | a valid moment on the following calendar day at the same time of day |
| Calendar.NextDayIsOneDayLater | src/components/booking/BookingSuccessState.tsx:35-37 | the end comes after the start and the start is exactly its previous day |
| Calendar.PrevDayIsOneDayEarlier | src/components/booking/BookingSuccessState.tsx:35-37 | every day after the first is the day after its predecessor |
| Calendar.FormatStamp | src/components/booking/BookingSuccessState.tsx:39-41 | the formatted stamp holds no '-' or ':' and ends in 'Z' |
| Calendar.FormatOfIso | src/components/booking/BookingSuccessState.tsx:39-41 | applied to an ISO timestamp, the formatter yields the compact UTC form, with separators and fractional seconds removed |
| Calendar.FormatExample | src/components/booking/BookingSuccessState.tsx:39-41 | midnight of 15 March 2024 becomes 20240315T000000Z |
| Calendar.EventLines | src/components/booking/BookingSuccessState.tsx:43-56 | twelve lines: calendar begin, version, the product id, one event begin, the start and end stamps, the summary, the description built from title and location, the location, TENTATIVE status, then the event end and calendar end |
| Calendar.IcsContent | src/components/booking/BookingSuccessState.tsx:43-56 | the event's lines joined by line feeds; Calendar.IcsRoundTrip splits them back |
| Calendar.IcsLines | src/components/booking/BookingSuccessState.tsx:35-56 | the event's stamps are the compact forms of the start and of exactly one calendar day later |
| Calendar.IcsRoundTrip | src/components/booking/BookingSuccessState.tsx:43-56 | splitting the file at line feeds gives back exactly the twelve lines, when the title and location hold no line feed |
| Calendar.Slug | src/components/booking/BookingSuccessState.tsx:62 | the slug holds no whitespace |
| Calendar.SlugRun | src/components/booking/BookingSuccessState.tsx:62 | a whitespace run of any length after a word becomes one '-', and the slug continues with what follows the run |
| Calendar.SlugKeeps | src/components/booking/BookingSuccessState.tsx:62 | text without whitespace is left alone |
| Calendar.SlugWords | src/components/booking/BookingSuccessState.tsx:62 | the space between two words becomes one '-' |
| Calendar.FileName | src/components/booking/BookingSuccessState.tsx:62 | the fixed prefix, the slug of the lower-cased title, ".ics"; stated by Calendar.FileNameNoSpace, Calendar.FileNameAroundRun and Calendar.FileNameOfTwoWords |
| Calendar.FileNameNoSpace | src/components/booking/BookingSuccessState.tsx:62 | the download name never holds whitespace, whatever the title |
| Calendar.FileNameAroundRun | src/components/booking/BookingSuccessState.tsx:62 | a title whose first word is followed by whitespace gives the prefix, the lower-cased word, one '-', the slug of the lower-cased rest, and ".ics" |
| Calendar.FileNameOfTwoWords | src/components/booking/BookingSuccessState.tsx:62 | two words separated by any whitespace run give the prefix, the lower-cased words joined by one '-', and ".ics" |
| Calendar.ShareEstimate | src/components/booking/BookingSuccessState.tsx:75 | the summary's estimate as written, price x ceil(team / 12); compared with the form by Calendar.ShareAgreesOnlyAtTwelve |
| Calendar.ShareAgreesOnlyAtTwelve | src/components/booking/BookingSuccessState.tsx:75 | the summary's estimate matches the form's for every team exactly when the venue holds twelve guests |
| Calendar.ShareExample | src/components/booking/BookingSuccessState.tsx:75 | fifteen people on the Sydney Harbour charter: the form says $4200, the summary says $8400 |
| Calendar.SharedEstimateMatchesForm | src/components/booking/BookingSuccessState.tsx:75 | the intended summary estimate, the form's own figure, agrees with the written one at twelve-guest venues, quotes one night's price for a team that fits, and never falls as the team grows |
| Admin.ParseEmployeeEmails | src/app/admin/page.tsx:56-60 | no parsed entry is empty or has leading or trailing whitespace, and there are no more entries than lines |
| Admin.ParseIsEntries | src/app/admin/page.tsx:57-60 | the parsed list is, line by line, the trimmed text of each non-blank line |
| Admin.OnePerNonBlankLine | src/app/admin/page.tsx:57-60 | pasted lines give one entry per non-blank line, in line order |
| Admin.FirstLineFirst | src/app/admin/page.tsx:57-60 | the first line's entry, if any, precedes the entries of the rest of the text |
| Admin.BlankLineIgnored | src/app/admin/page.tsx:57-60 | a blank line changes nothing |
| Admin.BuildRows | src/app/admin/page.tsx:63-67 | one row per entry, in order, each an employee of the submitted company with that entry's address |
| Admin.RowsKeepEmails | src/app/admin/page.tsx:63-67 | the rows' addresses are exactly the entries, none lost and none added |
| Admin.EmployeeUpload | src/app/admin/page.tsx:56-78 | the upload as intended: the rows are built from the parsed list; after a successful insert the message is line 75's count message, after a failed one "Error: " with the error's message |
| Admin.EmployeeUploadAsWritten | src/app/admin/page.tsx:69-78 | the upload as written: the same rows; a failed insert ends as intended, but after a successful one the throwing form reset of line 76 replaces the count message with "Error: " and the reset's error text |
| Admin.ResetOverwritesSuccess | src/app/admin/page.tsx:74-78 | as written, a successful upload inserts every parsed address yet ends on a message that is not the count message and from which no count can be read |
| Admin.MessageCountsRows | src/app/admin/page.tsx:75 | in the intended upload, the number read back from line 75's success message is the number of rows, which is the number of parsed entries |
| Admin.UploadRows | src/app/admin/page.tsx:63-67 | every row is an employee of the submitted company, and the rows' addresses are the parsed entries in order |
| Strings.SplitJoin | src/app/admin/page.tsx:58 | joining the pieces of a split with the separator gives the text back |
| Strings.JoinSplit | src/components/booking/BookingSuccessState.tsx:56 | splitting a join of separator-free pieces gives the pieces back |
| Strings.Trim | src/app/admin/page.tsx:59 | the result is the text with its leading and trailing whitespace runs removed, and it is empty iff the text is all whitespace |
| Strings.RemoveFirstAt | src/components/quiz/CompanyQuiz.tsx:132 | `replace('+', '')` removes only the first '+', keeping what precedes and what follows |
| Strings.ParseIntRendered | src/components/quiz/CompanyQuiz.tsx:128 | `parseInt` reads back a rendered number, whatever non-digit text follows |

## Left out

- Database work is not modelled: the Supabase inserts and lookups, the
  admin's company registration (`src/app/admin/page.tsx:11-48`), the body
  of `signUpUser` after its branch, and `signInUser`, `getCurrentUser`,
  `signOut` and `setUserSession`. An insert's outcome is a parameter
  (`Admin.EmployeeUpload`) or the model stops at the row it would send
  (`Booking.Submit`).
- Admin.EmployeeUploadAsWritten: the text of the `TypeError` thrown by the
  form reset is a parameter, because its wording belongs to the JavaScript
  engine.
- Browser side effects are left out: `alert`, `window.location`,
  localStorage, and the Blob, anchor and mailto plumbing of the
  confirmation. The modal's submitting flag, the loading flags and the
  `onSuccess` hand-off are left out too.
- Library formatting is left out: `formatCurrency`, `formatDate`,
  `formatAUD`, `toLocaleDateString`, and the rest of the shared summary
  text besides its estimate.
- Randomness and clock reads are left out: `generateId`, the "teams booked"
  badge, chat message ids and timestamps. The current time is the `now`
  parameter.
- Timers are left out: `debounce` and the chat's reply delay. The delayed
  reply is `Chat.DeliverReply`, applied by the caller.
- The results view's booking and success orchestration
  (`src/components/quiz/CompanyQuiz.tsx:236-305`) and the progress bar are
  presentation.
- Catalog descriptions and image addresses (`description`, `image_url`)
  are not part of the venue record: no decision reads them. The amenity
  lists are carried, and only the bar and catering check reads them.
- Dates are UTC calendar moments (`Calendar.DateTime`) or millisecond
  instants (`Booking.DateInput`). Time zones and daylight saving are not
  modelled: `new Date('YYYY-MM-DD')` reads UTC while `setDate` works in
  local time, so a local zone can shift the end stamp by an hour.
- Calendar.IcsLines: requires a valid date with a four-digit year below
  9999. For an unparseable date, `toISOString` throws, and that is not
  modelled.
- Strings.Lower: maps only the ASCII letters. Unicode case mapping is left
  out, so titles and addresses with accented capitals are outside the
  model's claims.
- Strings.ParseInt: reads decimal only. The `0x` prefix that `parseInt`
  also accepts is left out; no option text of the site has one.
- Matching.PerPersonCrossMultiplied: exact arithmetic. JavaScript's
  rounding of `max_guests * 0.7` can differ from the exact quotient at an
  exact-equality boundary, and no catalog venue sits on one.
- Booking.EstimatedCost: requires a positive capacity. With zero,
  JavaScript gives `Infinity` or `NaN`; every catalog venue has a positive
  capacity (`Catalog.CatalogWellFormed`). The same precondition is on
  Booking.Submit, Booking.EstimateMonotone and Calendar.SharedEstimate.
- Booking.Validate: the email pattern's `\s` is ECMAScript's whitespace set
  and the date is an instant or invalid. Date-string parsing itself is left
  out.
- Booking.InitialForm: with quiz answers, the special requests are the
  summary of the event type, budget and vibe answers; the contract states
  only the no-quiz case, which is the one the shipped quiz reaches.
- Utils.CnSplit: requires that no class name holds a space, because a name
  with a space splits into several pieces.
- Utils.GetInitials: `toUpperCase` is ASCII only (see Strings.Lower).
  A Dafny `char` is one Unicode code point, while `word[0]` reads one
  UTF-16 code unit: for a word starting with a character outside the Basic
  Multilingual Plane (an emoji, say) the source yields half a surrogate
  pair and the model the whole character.
- Utils.TruncateText: lengths and the cut position count code points.
  JavaScript's `length` and `slice` count UTF-16 code units, so text with
  characters outside the Basic Multilingual Plane is cut earlier by the
  source, and can be split inside a surrogate pair.
- The `teamSizeOptions` list of the booking form is not modelled: the team
  size is any natural number.

## Findings

| source | as written | input that shows it | evidently intended | confidence | as-written member | corrected member |
|---|---|---|---|---|---|---|
| src/components/booking/BookingSuccessState.tsx:75 | the shared estimate is price x ceil(teamSize / 12) for every venue | Sydney Harbour (20 guests, $4200) with 15 people: the summary says $8400, while the booking form (`SimpleBookingModal.tsx:154`) said $4200 | divide by the venue's own capacity, as the booking form does | medium, not executed | Calendar.ShareAgreesOnlyAtTwelve | Calendar.SharedEstimateMatchesForm |
| src/app/admin/page.tsx:76 | `e.currentTarget.reset()` runs after the awaited insert, when the finished event's `currentTarget` is null, so it throws and the catch replaces the count message | any successful upload, e.g. the single line "a@x.com": the row is inserted, yet the page shows "Error: " and the engine's TypeError text instead of "1 employees added successfully!" | clear the form through the element taken before the await, keeping the count message | medium, not executed (rests on React clearing `currentTarget` once dispatch ends) | Admin.ResetOverwritesSuccess | Admin.MessageCountsRows |
