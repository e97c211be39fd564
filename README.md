# Tutoring platform core, modelled in Dafny

This project models the logic core of a tutoring platform. The platform is a
React front end over a Supabase store, together with one Deno edge function
that talks to PayPal.

Learners book sessions with approved tutors, pay for them, and chat with their
tutors. Tutors apply, teach sessions, and see their students and earnings.
Administrators review tutor applications and see platform-wide figures.

The model covers these parts:

- **The store's enumerations and row shapes** (`Schema`).
- **What each page derives from its query results**:
  - the joins, filters, de-duplication and ordering;
  - the counters, sums and ratios;
  - the search boxes and tabs;
  - the display names.
- **The form editors that build a tutor application** (`TutorApplication`).
- **The state-changing components**, which are modelled as classes whose
  methods update fields:
  - the chat view (`Chat.ChatView`);
  - the upload list of the file-upload component (`FileUpload.UploadList`);
  - the payments table written by the PayPal handler
    (`Checkout.PaymentsTable`).
- **The two-pass student summary**, which works by mutation. It is modelled
  with methods over a `map`, proved equal to a recursive specification
  function (`Students.BuildSummaries`).

Every store or PayPal call becomes a parameter: a `Query<T>` (an error or the
rows) or an `Upstream` record of what the outside world answered. Clocks and
date parsing are parameters too (`now`, `time: Timestamp -> int`, `sameDay`).
Nothing in the model performs I/O.

Modules: `Wrappers` (Option, Query), `Seqs` (filters, sums, find,
de-duplication, sorting), `Strings` (trim, case, containment, display names,
numerals), `Schema`, and one module per page or component.

## Model

| member | source | states |
|---|---|---|
| Schema.ParsePaymentStatus | src/integrations/supabase/types.ts:395 | exactly the four `payment_status` values parse, and each parses to the value of that name |
| Schema.ParseSessionStatus | src/integrations/supabase/types.ts:396 | exactly the four `session_status` values parse, and each parses to the value of that name |
| Schema.ParseTutorStatus | src/integrations/supabase/types.ts:397 | exactly the four `tutor_status` values parse, and each parses to the value of that name |
| Schema.ParseUserRole | src/integrations/supabase/types.ts:398 | exactly the three `user_role` values parse, and each parses to the value of that name |
| Schema.PaymentStatusRoundTrip | src/integrations/supabase/types.ts:395 | writing any payment status and reading it back yields the same status |
| Schema.SessionStatusRoundTrip | src/integrations/supabase/types.ts:396 | writing any session status and reading it back yields the same status |
| Schema.TutorStatusRoundTrip | src/integrations/supabase/types.ts:397 | writing any tutor status and reading it back yields the same status |
| Schema.UserRoleRoundTrip | src/integrations/supabase/types.ts:398 | writing any role and reading it back yields the same role |
| Schema.PaymentStatusConstants | src/integrations/supabase/types.ts:526 | the `Constants` array names every payment status, in union order, each once |
| Schema.SessionStatusConstants | src/integrations/supabase/types.ts:527 | the `Constants` array names every session status, in union order, each once |
| Schema.TutorStatusConstants | src/integrations/supabase/types.ts:528 | the `Constants` array names every tutor status, in union order, each once |
| Schema.UserRoleConstants | src/integrations/supabase/types.ts:529 | the `Constants` array names every role, in union order, each once |
| Strings.Trim | src/components/RealTimeChat.tsx:132 | `trim()`: the result is the slice of the input left after a blank prefix and before a blank suffix, with no whitespace at either end, and empty exactly for a blank input |
| Strings.TrimCharacterised | src/components/RealTimeChat.tsx:132 | any slice of the input with blank text before and after it, no whitespace at its ends, and empty exactly for a blank input, is the trimmed string: the contract of `Trim` fixes its result |
| Strings.TrimIdempotent | src/pages/TutorApplication.tsx:144 | trimming a trimmed string changes nothing |
| Strings.ToLower | src/pages/FindTutors.tsx:98 | `toLowerCase()` keeps the length and lowers each character |
| Strings.ToLowerIdempotent | src/pages/FindTutors.tsx:98 | lowering twice is lowering once |
| Strings.Contains | src/pages/FindTutors.tsx:98 | `includes` holds exactly when the pattern occurs at some position |
| Strings.ContainsEmpty | src/pages/Messages.tsx:111 | every string includes the empty search term |
| Strings.FullName | src/pages/AdminUsers.tsx:141 | the template `${first \|\| ''} ${last \|\| ''}`: the first name (empty when missing), then one space, then the last name (empty when missing) |
| Strings.DisplayName | src/pages/AdminUsers.tsx:141 | a blank full name gives the fallback; otherwise the trimmed full name, which is non-empty, has no whitespace at its ends and occurs in the full name |
| Strings.TrimContained | src/pages/AdminUsers.tsx:141 | the trimmed string occurs in the string it came from |
| Strings.DisplayNameMissing | src/pages/FindTutors.tsx:115 | with neither name present the fallback is shown |
| Strings.LessIrreflexive | src/pages/Students.tsx:124 | the string `>` comparison of start times is irreflexive |
| Strings.LessTransitive | src/pages/Students.tsx:124 | the string `>` comparison of start times is transitive |
| Strings.NatToString | src/components/FileUpload.tsx:46 | a number's decimal text is a non-empty digit string without a leading zero |
| Strings.NatToStringRoundTrip | src/components/FileUpload.tsx:99 | the decimal text reads back to the same number, so distinct times give distinct stamps |
| Seqs.Find | src/pages/Sessions.tsx:95 | `find` returns the first element satisfying the test, or none exactly when no element does |
| Seqs.FindIndex | src/pages/TutorApplication.tsx:158-159 | the position of the first element with the key, or -1 exactly when there is none |
| Seqs.RemoveIndex | src/pages/TutorApplication.tsx:153 | `filter((_, i) => i !== index)`: only position `index` goes, and nothing goes when it is out of range |
| Seqs.Dedup | src/pages/Calendar.tsx:89-92 | `filter((s, i, self) => i === self.findIndex(...))`: keys become unique, every key stays, each kept element is the first with its key, and the kept elements come in the order in which their keys first occur |
| Seqs.DedupPrefersFirst | src/pages/Calendar.tsx:89-92 | an element whose key is new in the first list survives the merge with the second |
| Seqs.DedupUnique | src/pages/Calendar.tsx:89-92 | a list whose keys are already unique is left as it is |
| Seqs.SortBy | src/pages/AdminApplications.tsx:85 | `.order(...)`: the result is sorted by the key and is a permutation of the input |
| Admin.CompletedPayments | src/pages/Admin.tsx:89-92 | the completed-payments query returns exactly the table's completed rows |
| Admin.Compute | src/pages/Admin.tsx:74-113 | the user total is the count, or 0 for a null count; the tutor and session totals are the list lengths; pending applications, approved tutors and completed sessions are the numbers of rows with that status |
| Admin.FetchAdminStats | src/pages/Admin.tsx:41-122 | without the admin role row, or when any query fails, the figures stay as they were; otherwise they are recomputed from the rows |
| Admin.InitialStatsConsistent | src/pages/Admin.tsx:104-113 | the initial all-zero figures are mutually consistent |
| Admin.MonthRevenueWithinTotal | src/pages/Admin.tsx:96-102 | with no negative amount, the month's revenue lies between 0 and the total revenue |
| Admin.FetchKeepsConsistent | src/pages/Admin.tsx:41-122 | every fetch outcome keeps the figures consistent, given no negative amount |
| Admin.RevenueIgnoresUncompleted | src/pages/Admin.tsx:92 | a row that is not completed, placed anywhere in the payments table, changes no figure |
| Admin.NoPaymentsNoRevenue | src/pages/Admin.tsx:89-102 | with no payment rows both revenue figures are 0 |
| Admin.CompletedPaymentRevenue | src/pages/Admin.tsx:89-102 | a completed payment adds its amount to the total revenue, and to the month's revenue exactly when it was created at or after `cutoff` (day 1 of the current month at the current clock time, as `setDate(1)` leaves it); no other figure changes |
| Admin.AtLeastOne | src/pages/Admin.tsx:341 | `Math.max(n, 1)` is at least 1 and at least `n`, and equals `n` when `n` is positive |
| Admin.CompletionRate | src/pages/Admin.tsx:249-252 | a rate is shown exactly when there are sessions |
| Admin.AverageRevenue | src/pages/Admin.tsx:279-283 | an average is shown exactly when some session is completed, and it times that count is the total revenue |
| Admin.SuccessRate | src/pages/Admin.tsx:341 | with no sessions the divisor is 1 |
| Admin.StudentTutorRatio | src/pages/Admin.tsx:347 | 0 without approved tutors; otherwise it times the approved count is the user count |
| Admin.PlatformActive | src/pages/Admin.tsx:330-336 | `Platform Active` is shown exactly when the unrounded student-to-tutor ratio is positive, that is with users and approved tutors |
| Admin.RatesArePercentages | src/pages/Admin.tsx:249-341 | on consistent figures both session percentages lie in [0, 100] |
| Admin.PercentageBound | src/pages/Admin.tsx:341 | a part of a positive whole is between 0% and 100% of it |
| Admin.SuccessRateMatchesCompletionRate | src/pages/Admin.tsx:341 | with sessions, the success rate equals the completion rate; with none it is 0% |
| AdminApplications.FetchApplications | src/pages/AdminApplications.tsx:55-100 | without the admin role row, or on a query error, the list is kept; otherwise it is a permutation of the fetched rows, newest first |
| AdminApplications.BuildUpdate | src/pages/AdminApplications.tsx:104-108 | the update always sets the status; only approving also sets the approval time and the approving admin |
| AdminApplications.Apply | src/pages/AdminApplications.tsx:110-113 | the stored row changes in the columns the update names and in no other |
| AdminApplications.OfferedStatuses | src/pages/AdminApplications.tsx:309-351 | Approve and Reject are offered for a pending application only |
| AdminApplications.Review | src/pages/AdminApplications.tsx:102-113 | a button review needs a pending application; approving sets the status and stamps the approver and time, rejecting sets only the status, and every other column is kept |
| AdminApplications.OnlyPendingIsReviewed | src/pages/AdminApplications.tsx:309-351 | every offered move starts at pending and leads away from it |
| AdminApplications.FilterApplications | src/pages/AdminApplications.tsx:148-151 | `all` shows the whole list; any other key shows exactly the applications of that status, in order |
| AdminApplications.UnknownKeyShowsNothing | src/pages/AdminApplications.tsx:148-151 | a key that names no status shows nothing |
| AdminApplications.TabCountsWithinAll | src/pages/AdminApplications.tsx:377-388 | the pending, approved and rejected counts together are at most the `All` count |
| AdminApplications.TutorName | src/pages/AdminApplications.tsx:143-146 | the applicant's trimmed full name, or `Tutor` without a profile or with a blank name |
| AdminUsers.Secondary | src/pages/AdminUsers.tsx:81-117 | no ids or a failed query give no rows; otherwise the rows for the listed ids |
| AdminUsers.Process | src/pages/AdminUsers.tsx:120-125 | a user gets exactly its own role rows, its first tutor row (none exactly when it has none), and the number of its learner sessions |
| AdminUsers.UserIds | src/pages/AdminUsers.tsx:78 | the profiles' user ids, position by position |
| AdminUsers.FetchUsers | src/pages/AdminUsers.tsx:50-138 | without the admin role row, or on a profiles error, the list is kept; otherwise there is one user per fetched profile, in order |
| AdminUsers.JoinMatchesTables | src/pages/AdminUsers.tsx:78-125 | with every query successful, each user's roles, tutor row and session count are what the whole tables hold for that user |
| AdminUsers.FailedSecondaryQueries | src/pages/AdminUsers.tsx:81-117 | failed secondary queries still list every user, with no roles, no tutor row and no sessions |
| AdminUsers.UserName | src/pages/AdminUsers.tsx:140-142 | the user's trimmed full name, or `User` when it is blank; never empty |
| AdminUsers.RoleNames | src/pages/AdminUsers.tsx:144-146 | the role names follow the role rows, position by position |
| AdminUsers.FilteredUsers | src/pages/AdminUsers.tsx:157-166 | exactly the users whose email or name includes the term ignoring case, and who hold the filtered role (or the filter is `all`), in order |
| AdminUsers.NoFilterListsAll | src/pages/AdminUsers.tsx:157-166 | the empty search with `all` lists everyone |
| AdminUsers.CountsWithinUsers | src/pages/AdminUsers.tsx:228-373 | the tutor-role count, and the approved plus pending tutor counts, are at most the user count |
| Calendar.TutorSessions | src/pages/Calendar.tsx:64-86 | the taught sessions appear only when the tutor row was found and their query succeeded |
| Calendar.MergeSessions | src/pages/Calendar.tsx:48-105 | a learner-query error keeps the list; otherwise the list is the learner sessions then the taught ones, de-duplicated by id |
| Calendar.MergedSessionsUnique | src/pages/Calendar.tsx:89-92 | after a fetch the ids are unique, every fetched id appears, each shown session is the first fetched with its id, and the shown sessions come in the order in which their ids are first fetched |
| Calendar.LearnerCopyWins | src/pages/Calendar.tsx:89-92 | a session in both lists is shown as the learner query returned it |
| Calendar.NoTutorRowShowsLearnerSessions | src/pages/Calendar.tsx:71-92 | a user without a tutor row sees exactly the learner sessions |
| Calendar.SessionsForDate | src/pages/Calendar.tsx:113-117 | exactly the sessions starting on the day, in order |
| Calendar.ProfileName | src/pages/Calendar.tsx:131-135 | no profile gives the fallback; a profile gives its display name; the result is non-empty when the fallback is |
| Calendar.OtherParticipant | src/pages/Calendar.tsx:129-137 | the learner sees the tutor's name or `Tutor`; anyone else sees the learner's name or `Student`; the result is never empty (the conversation list's `getSessionDisplayName`, src/pages/Messages.tsx:119-129, is the same function) |
| Calendar.NamelessParticipants | src/pages/Calendar.tsx:129-137 | without profiles the other side is shown by role |
| Messages.AutoSelect | src/pages/Messages.tsx:93-95 | the first conversation is selected only when nothing was selected and the list is not empty |
| Messages.FetchConversations | src/pages/Messages.tsx:50-106 | a learner-query error changes nothing; otherwise the merged list replaces the old one, and the selection changes only from none to the first conversation |
| Messages.FetchSelectsSomething | src/pages/Messages.tsx:87-95 | a successful fetch with a learner session always leaves a conversation selected |
| Messages.FilteredSessions | src/pages/Messages.tsx:108-117 | exactly the sessions whose title or a joined name includes the term ignoring case, in order |
| Messages.EmptySearchShowsAll | src/pages/Messages.tsx:108-117 | the empty search shows every conversation |
| Messages.NamelessSessionMatchesByTitle | src/pages/Messages.tsx:112-115 | a session without profiles is found only through its title |
| Messages.Participants | src/pages/Messages.tsx:239 | the learner id, then the tutor's user id or the empty string |
| FindTutors.FetchData | src/pages/FindTutors.tsx:57-94 | either query failing keeps the data; otherwise the catalogue is stored and the tutors are exactly the approved ones, in order |
| FindTutors.FilteredTutors | src/pages/FindTutors.tsx:96-110 | exactly the tutors passing the search, subject and category tests, in order |
| FindTutors.EmptyFiltersAcceptAll | src/pages/FindTutors.tsx:103-107 | empty subject and category filters accept every tutor |
| FindTutors.ClearFilters | src/pages/FindTutors.tsx:189-193 | Clear Filters empties all three inputs |
| FindTutors.ClearedFiltersListSearchableTutors | src/pages/FindTutors.tsx:96-110 | after clearing, a tutor is listed exactly when it has a name, a bio or a subject |
| FindTutors.NamelessTutorNeverListed | src/pages/FindTutors.tsx:97-101 | a tutor with no profile and no subjects is never listed, whatever the filters |
| FindTutors.PresentCategories | src/pages/FindTutors.tsx:112 | the catalogue's non-empty categories, and only those |
| FindTutors.Categories | src/pages/FindTutors.tsx:112 | each non-empty category once, and the categories in the order of their first appearance in the catalogue |
| FindTutors.SubjectChoices | src/pages/FindTutors.tsx:177-178 | the whole catalogue, or exactly the selected category's subjects, in order |
| FindTutors.TutorName | src/pages/FindTutors.tsx:114-116 | the tutor's trimmed full name, or `Tutor` without a profile or with a blank name |
| Sessions.NormalisePayment | src/pages/Sessions.tsx:97 | an array becomes its first element (none when it is empty); a single object is kept |
| Sessions.FirstWithUser | src/pages/Sessions.tsx:95 | the first profile of the user, or none exactly when there is none |
| Sessions.TutorUserIds | src/pages/Sessions.tsx:76 | exactly the sessions' non-empty tutor user ids |
| Sessions.ProfilesData | src/pages/Sessions.tsx:78-88 | no ids or a failed query give no profiles; otherwise exactly the table's profiles whose user id is one of the asked ids |
| Sessions.LookupThroughQuery | src/pages/Sessions.tsx:83-95 | looking a user up among the restricted profiles finds what the whole table would give |
| Sessions.Merge | src/pages/Sessions.tsx:91-98 | a session keeps its row, gets its tutor's first profile, and gets its payment normalised |
| Sessions.FetchSessions | src/pages/Sessions.tsx:60-111 | a session-query error keeps the list; otherwise each fetched session is merged, in order |
| Sessions.FetchedProfileIsTablesFirst | src/pages/Sessions.tsx:76-98 | a session with a tutor user id gets that user's first profile in the whole table |
| Sessions.FailedProfilesKeepSessions | src/pages/Sessions.tsx:85-87 | a failed profiles query keeps every session, with no profile |
| Sessions.IsPaid | src/pages/Sessions.tsx:141-143 | a session is paid exactly when it has a payment whose status is `completed` |
| Sessions.NeedsPayment | src/pages/Sessions.tsx:239-250 | `Pay Now` shows exactly on a session whose stored status is `scheduled` and that is not paid |
| Sessions.PayNowGuard | src/pages/Sessions.tsx:239-250 | payment is asked for exactly on scheduled sessions without a completed payment |
| Sessions.OnlyFirstPaymentCounts | src/pages/Sessions.tsx:97-143 | a completed payment after a failed one leaves the session unpaid |
| Sessions.TabStatus | src/pages/Sessions.tsx:145-156 | `upcoming`, `completed` and `cancelled` filter on their status; any other key filters on nothing |
| Sessions.FilterSessions | src/pages/Sessions.tsx:145-156 | exactly the sessions with the tab's status, in order, or every session |
| Sessions.InProgressOnlyUnderAll | src/pages/Sessions.tsx:145-156 | an in-progress session shows under `all` and under no status tab |
| Sessions.TutorName | src/pages/Sessions.tsx:123-126 | the tutor's trimmed full name, or `Tutor` without a profile or with a blank name |
| TeachingSessions.BuildUpdate | src/pages/TeachingSessions.tsx:94-100 | the update sets the status; the start is stamped only for in-progress and the end only for completed, never both |
| TeachingSessions.Apply | src/pages/TeachingSessions.tsx:102-105 | the stored row changes in the columns the update names and in no other |
| TeachingSessions.OfferedStatus | src/pages/TeachingSessions.tsx:237-254 | an action is offered exactly for scheduled and in-progress sessions |
| TeachingSessions.OfferedTransitions | src/pages/TeachingSessions.tsx:237-254 | the only offered moves are scheduled to in-progress and in-progress to completed |
| TeachingSessions.FinishedSessionsAreFinal | src/pages/TeachingSessions.tsx:237-254 | completed and cancelled sessions offer no action |
| TeachingSessions.StartThenComplete | src/pages/TeachingSessions.tsx:92-122 | Start then Complete leaves a session completed, with the start and end stamped by the two updates and every other column as it was |
| TeachingSessions.TabStatus | src/pages/TeachingSessions.tsx:139-152 | the four tab keys filter on their status; an unknown key filters on nothing |
| TeachingSessions.FilterSessions | src/pages/TeachingSessions.tsx:139-152 | exactly the sessions with the tab's status, in order, or every session |
| TeachingSessions.StatusCountsPartition | src/pages/TeachingSessions.tsx:281-284 | the four status counts add up to the number of sessions |
| TeachingSessions.TabCountsPartition | src/pages/TeachingSessions.tsx:280-284 | the four tab counts add up to the `All Sessions` count |
| TeachingSessions.StudentName | src/pages/TeachingSessions.tsx:134-137 | the learner's trimmed full name, or `Student` without a profile or with a blank name |
| Students.Tally | src/pages/Students.tsx:89-127 | the first pass's record of a learner is that learner's; its counters are stated by the lemmas below |
| Students.AverageRating | src/pages/Students.tsx:130-136 | 0 for a learner with no non-zero rating; otherwise, times the number of rated sessions, it is the sum of their ratings |
| Students.Summary | src/pages/Students.tsx:89-138 | the learner's summary is the first pass's record with the average rating of the second pass filled in; nothing else differs |
| Students.Summaries | src/pages/Students.tsx:138 | one summary per distinct learner |
| Students.CountSession | src/pages/Students.tsx:110-126 | one session's effect on its learner's record, as the loop body updates the map entry |
| Students.FirstPass | src/pages/Students.tsx:89-127 | the map's keys are the learners in first-seen order, and each entry is the learner's tally |
| Students.BuildSummaries | src/pages/Students.tsx:89-138 | the two passes return each learner's summary, in first-seen order |
| Students.TallyAverageIsZero | src/pages/Students.tsx:105 | the first pass leaves every average at 0 |
| Students.LearnersDistinct | src/pages/Students.tsx:95-108 | each learner is entered once |
| Students.LearnersCover | src/pages/Students.tsx:95-108 | a learner is entered exactly when some session is theirs |
| Students.LearnersStep | src/pages/Students.tsx:95-108 | a session adds its learner to the keys only on first sight |
| Students.TallyStep | src/pages/Students.tsx:110-126 | a session updates only its own learner's record |
| Students.AbsorbCounters | src/pages/Students.tsx:111-118 | a session adds one to the count, and a completed one adds one to the completed count and its amount to the earnings |
| Students.StartUnseen | src/pages/Students.tsx:96-107 | a learner's record starts with zero counters |
| Students.UnseenHasNoSessions | src/pages/Students.tsx:95-108 | an unseen learner has no session and no completed session |
| Students.CountStep | src/pages/Students.tsx:111 | one step of the session-count invariant |
| Students.TallyCount | src/pages/Students.tsx:111 | a learner's session count is the number of their sessions |
| Students.CompletedStep | src/pages/Students.tsx:113-114 | one step of the completed-count invariant |
| Students.TallyCompleted | src/pages/Students.tsx:113-114 | a learner's completed count is the number of their completed sessions |
| Students.EarningsStep | src/pages/Students.tsx:115-117 | one step of the earnings invariant |
| Students.TallyEarnings | src/pages/Students.tsx:113-117 | a learner's earnings are the sum of the amounts of their completed sessions |
| Students.CompletedAtMostSessions | src/pages/Students.tsx:111-114 | completed sessions never exceed sessions |
| Students.EarningsFromCompletedOnly | src/pages/Students.tsx:113-117 | no completed session means no earnings, and no negative amount means no negative earnings |
| Students.AverageRatingSpec | src/pages/Students.tsx:130-136 | the average is the mean of the learner's non-zero ratings, or 0 when there are none |
| Students.AbsorbLists | src/pages/Students.tsx:120-126 | a session adds a new non-empty subject name, and moves the last session forward when it starts later |
| Students.HasSubjectStep | src/pages/Students.tsx:120-122 | one step of the subjects invariant |
| Students.TallySubjectsDistinct | src/pages/Students.tsx:120-122 | each subject is listed once |
| Students.TallySubjectsMembers | src/pages/Students.tsx:120-122 | exactly the non-empty subject names of the learner's sessions are listed |
| Students.SessionsStep | src/pages/Students.tsx:124-126 | one step of the last-session invariant |
| Students.TallyLastSession | src/pages/Students.tsx:124-126 | the last session is set exactly for a learner with sessions, and it is one of their start times with none later |
| Students.SessionCountStep | src/pages/Students.tsx:111 | a session raises only its own learner's count, by one |
| Students.CountSumStep | src/pages/Students.tsx:111 | one step of the count-sum invariant |
| Students.SessionCountsSum | src/pages/Students.tsx:89-127 | the session counts of all students add up to the number of sessions |
| Students.FilteredStudents | src/pages/Students.tsx:151-159 | exactly the students whose names, email or a subject include the term ignoring case, in order |
| Students.EmptySearchKeepsAll | src/pages/Students.tsx:151-159 | the empty search keeps every student |
| Earnings.PaymentDate | src/pages/Earnings.tsx:104 | `p.processed_at \|\| p.created_at`: the processing time when it is set and non-empty, else the creation time |
| Earnings.Average | src/pages/Earnings.tsx:116-118 | 0 for no sessions; otherwise it times the count is the total |
| Earnings.ComputeEarnings | src/pages/Earnings.tsx:97-127 | the completed count is at most the number of payments, and the average rate is the total over that count, 0 with no completed payment |
| Earnings.CompletedPaymentCounts | src/pages/Earnings.tsx:97-124 | a new completed payment adds one session and its amount to the total; it adds its amount to the month's and the year's earnings exactly when its date falls in them, and leaves the pending total alone |
| Earnings.NoPaymentsEarnNothing | src/pages/Earnings.tsx:97-127 | with no payments every figure is 0 |
| Earnings.PendingPaymentCounts | src/pages/Earnings.tsx:98-125 | a new pending payment adds only to the pending total |
| Earnings.FailedAndRefundedIgnored | src/pages/Earnings.tsx:97-98 | a failed or refunded payment anywhere changes no figure |
| Earnings.MonthWithinYearWithinTotal | src/pages/Earnings.tsx:91-114 | with no negative amount, 0 ≤ the month's earnings ≤ the year's ≤ the total |
| Earnings.NothingCompletedEarnsNothing | src/pages/Earnings.tsx:97-118 | with no completed payment every earnings figure is 0 |
| Chat.HasImageExtension | src/components/RealTimeChat.tsx:167 | the lower-cased path ends in `.jpg`, `.jpeg`, `.png`, `.gif` or `.webp`; such a path has at least four characters |
| Chat.ClassifyFile | src/components/RealTimeChat.tsx:167-169 | `image` exactly when the path contains `image` or ends in an image extension in any case, otherwise `file` |
| Chat.ImageExtensionIgnoresCase | src/components/RealTimeChat.tsx:167 | the extension test gives the same answer for a path and its lower-cased form |
| Chat.UpperCaseJpegIsImage | src/components/RealTimeChat.tsx:167 | a `.JPG` file is an image |
| Chat.InnerExtensionIsNotImage | src/components/RealTimeChat.tsx:167 | only the final extension counts: `a.jpg.txt` is a file |
| Chat.ImageExtensionLastLetter | src/components/RealTimeChat.tsx:167 | a name ending in a letter other than g, p or f has no image extension |
| Chat.FileMessage | src/components/RealTimeChat.tsx:171-179 | the row reads `Shared a <type>`, and carries the type, the URL, the sender and the session |
| Chat.TextMessage | src/components/RealTimeChat.tsx:135-142 | the row carries the trimmed draft as a `text` message, with no file |
| Chat.History | src/components/RealTimeChat.tsx:50-69 | the session's messages, each as often as fetched, in ascending time order |
| Chat.UserInitials | src/components/RealTimeChat.tsx:205-210 | both initials when both names are present; else the upper-cased email initial; else `U` |
| Chat.AnonymousInitials | src/components/RealTimeChat.tsx:205-210 | a sender without profile, names or email shows `U` |
| Chat.EmailInitialIsUpperCase | src/components/RealTimeChat.tsx:209 | a lower-case email initial is shown upper-cased |
| Chat.ChatView.constructor | src/components/RealTimeChat.tsx:36-39 | the chat starts empty, with an empty draft and the upload panel closed |
| Chat.ChatView.Load | src/components/RealTimeChat.tsx:48-78 | the fetched history replaces the list; a failed fetch keeps it |
| Chat.ChatView.OnInsert | src/components/RealTimeChat.tsx:112-117 | an insert event appends the re-fetched row, and the old messages stay a prefix |
| Chat.ChatView.SendMessage | src/components/RealTimeChat.tsx:131-154 | nothing is sent exactly when there is no user or the draft is blank; the trimmed row is sent; the draft clears only on success; the message list is untouched |
| Chat.ChatView.ShareFile | src/components/RealTimeChat.tsx:163-191 | nothing is sent exactly when there is no user; the file row is sent; the panel closes only on success |
| Checkout.ApprovalUrl | supabase/functions/paypal-checkout/index.ts:125 | the href of the first `approve` link, or none exactly when there is no such link |
| Checkout.MarkCompleted | supabase/functions/paypal-checkout/index.ts:161-168 | the row becomes `completed` with the capture id and the processing time; every other column is kept |
| Checkout.Capture | supabase/functions/paypal-checkout/index.ts:161-168 | the rows of the order are marked completed with the payment id and time; every other row is kept |
| Checkout.CaptureIdempotent | supabase/functions/paypal-checkout/index.ts:161-168 | capturing the same order twice equals capturing it once |
| Checkout.CaptureKeepsIdentity | supabase/functions/paypal-checkout/index.ts:161-168 | a capture keeps each row's id, session, parties, amount and order id |
| Checkout.CaptureUnknownOrder | supabase/functions/paypal-checkout/index.ts:161-168 | capturing an order no row refers to changes nothing |
| Checkout.PaymentsTable.constructor | supabase/functions/paypal-checkout/index.ts:107-108 | the table starts with the given rows |
| Checkout.PaymentsTable.Serve | supabase/functions/paypal-checkout/index.ts:22-196 | the handler's outcome for each branch: preflight, missing credentials, token failure, each POST failure, a successful POST appending exactly one pending row, each GET failure, a capture, 405 |
| FileUpload.LastSegment | src/components/FileUpload.tsx:49 | `split('.').pop()`: the text after the last dot, which contains no dot |
| FileUpload.LastSegmentNoDot | src/components/FileUpload.tsx:49 | a name without a dot is its own extension text |
| FileUpload.LastSegmentSplits | src/components/FileUpload.tsx:49 | a dotted name is its stem, the last dot and the last segment |
| FileUpload.Extension | src/components/FileUpload.tsx:49 | `.` followed by the lower-cased last segment: it starts with a dot and holds no other |
| FileUpload.ExtensionEndsName | src/components/FileUpload.tsx:49 | a dotted name, lower-cased, ends in its extension |
| FileUpload.IndexOf | src/components/FileUpload.tsx:52 | the position of the first occurrence of the character, or the length when there is none |
| FileUpload.IndexOfFirst | src/components/FileUpload.tsx:52 | the first occurrence is where the search stops |
| FileUpload.RemoveFirstSpec | src/components/FileUpload.tsx:52 | `replace('*', '')` removes exactly the first star, and nothing when there is none |
| FileUpload.RemoveFirstIsNotRemoveAll | src/components/FileUpload.tsx:52 | `"a**"` becomes `"a*"` |
| FileUpload.TypeMatches | src/components/FileUpload.tsx:50-55 | an entry with a star matches a MIME type starting with the entry less its first star; any other entry matches exactly the file's extension |
| FileUpload.SomeTypeMatchesExists | src/components/FileUpload.tsx:50-55 | `some` holds exactly when one accepted entry matches |
| FileUpload.ValidateFile | src/components/FileUpload.tsx:44-62 | no refusal exactly when the file is within the size limit and some accepted entry matches; the size refusal exactly when it is over the limit, carrying the limit; the type refusal carries the accepted list |
| FileUpload.ValidateFileSpec | src/components/FileUpload.tsx:44-62 | a file passes exactly when it is within the size limit and an entry matches; oversize is reported first, then the type message |
| FileUpload.DefaultsAcceptImageAtLimit | src/components/FileUpload.tsx:35-45 | with the defaults, a photo of exactly 10 MB passes |
| FileUpload.DefaultsAcceptUpperCasePdf | src/components/FileUpload.tsx:36-49 | with the defaults, `Notes.PDF` passes |
| FileUpload.DefaultsRefuseOversize | src/components/FileUpload.tsx:45-47 | one byte over 10 MB gets the size refusal, whatever the type |
| FileUpload.DefaultSizeMessage | src/components/FileUpload.tsx:46 | the default size message reads `File size must be less than 10MB` |
| FileUpload.StoragePath | src/components/FileUpload.tsx:95-102 | the path is the folder, a slash, then the name (stamped outside avatars); only an avatar path is exactly folder, slash and name |
| FileUpload.StampsAgree | src/components/FileUpload.tsx:99-101 | two digit stamps before the same dash and tail are equal |
| FileUpload.StoragePathStamped | src/components/FileUpload.tsx:99-101 | outside avatars, the path is the folder, the time, a dash and the name |
| FileUpload.StoragePathsDistinct | src/components/FileUpload.tsx:99-101 | outside avatars, the same name uploaded at two times gets two paths |
| FileUpload.StartedAll | src/components/FileUpload.tsx:84-90 | one uploading entry at 0% per file, in order |
| FileUpload.StartedAllAppend | src/components/FileUpload.tsx:90 | one more file appends one more entry |
| FileUpload.SettleAt | src/components/FileUpload.tsx:134-152 | only the entry at the index changes, to completed at 100% with its URL or to error with its message |
| FileUpload.AdmittedFiles | src/components/FileUpload.tsx:175 | no more files are admitted than were selected |
| FileUpload.AdmittedFilesAppend | src/components/FileUpload.tsx:175 | one more file is admitted or not, after the earlier ones |
| FileUpload.AdmittedFilesFilter | src/components/FileUpload.tsx:162-176 | the admitted files are exactly the selection's admissible files, in order |
| FileUpload.AdmitStep | src/components/FileUpload.tsx:175 | one loop step appends an entry exactly for an admitted file |
| FileUpload.AdmittedFilesNoUser | src/components/FileUpload.tsx:65-72 | without a user no file is admitted |
| FileUpload.CapturedIndicesAsWritten | src/components/FileUpload.tsx:91 | as written, every file of one selection captures the same index |
| FileUpload.CapturedIndices | src/components/FileUpload.tsx:91 | corrected: each admitted file's index is the earlier length plus its rank |
| FileUpload.CapturedIndicesAppend | src/components/FileUpload.tsx:91 | the next admitted file gets the next index |
| FileUpload.StaleIndexMisroutesCompletion | src/components/FileUpload.tsx:91-138 | as written, with two files selected the second completion lands on the first entry |
| FileUpload.CapturedIndicesOwnEntries | src/components/FileUpload.tsx:91-138 | with the corrected indices each file's index points at its own entry, and no two files share one |
| FileUpload.UploadList.constructor | src/components/FileUpload.tsx:40 | the list starts empty |
| FileUpload.UploadList.UploadFile | src/components/FileUpload.tsx:64-91 | an entry is appended exactly for an admitted file, and the returned index is the length before the append |
| FileUpload.UploadList.Settle | src/components/FileUpload.tsx:134-152 | the list becomes its settled form at the index |
| FileUpload.UploadList.Remove | src/components/FileUpload.tsx:194-196 | only the entry at the index goes |
| FileUpload.UploadList.HandleFileSelect | src/components/FileUpload.tsx:162-176 | no selection, or several files in single mode, changes nothing; otherwise each admitted file's entry is appended, in order, and nothing without a user |
| TutorApplication.AddLanguage | src/pages/TutorApplication.tsx:123-131 | a new non-blank trimmed language is appended and the draft cleared; otherwise nothing changes; old languages stay a prefix |
| TutorApplication.AddLanguageKeepsDistinct | src/pages/TutorApplication.tsx:124 | a duplicate-free language list stays duplicate-free |
| TutorApplication.AddLanguageIdempotent | src/pages/TutorApplication.tsx:123-131 | a second click adds nothing |
| TutorApplication.RemoveLanguage | src/pages/TutorApplication.tsx:133-138 | every copy of the language goes, and the others keep their order and multiplicity |
| TutorApplication.RemoveUndoesAddLanguage | src/pages/TutorApplication.tsx:123-138 | removing a just-added language restores the list |
| TutorApplication.AddCertification | src/pages/TutorApplication.tsx:140-148 | only the certifications and the draft change, and a blank draft changes nothing |
| TutorApplication.AddCertificationSpec | src/pages/TutorApplication.tsx:141-146 | with a non-blank draft the list is the old list's filled entries, in order and each as often as before, then the trimmed draft; the draft is cleared |
| TutorApplication.AddCertificationAllFilled | src/pages/TutorApplication.tsx:144 | after an addition no entry is blank |
| TutorApplication.RemoveCertification | src/pages/TutorApplication.tsx:150-155 | exactly the position goes, and nothing when it is out of range |
| TutorApplication.RemoveCertificationMultiset | src/pages/TutorApplication.tsx:153 | only the removed entry is missing from the multiset |
| TutorApplication.AddSubject | src/pages/TutorApplication.tsx:157-166 | an entry is appended exactly for a catalogue subject not yet picked, with the catalogue name and `intermediate` |
| TutorApplication.AddSubjectKeepsUnique | src/pages/TutorApplication.tsx:159 | picked subject ids stay unique |
| TutorApplication.RemoveSubject | src/pages/TutorApplication.tsx:168-170 | exactly the entries with the id go; every other entry stays as often as before, in order |
| TutorApplication.RemoveSubjectKeepsUnique | src/pages/TutorApplication.tsx:168-170 | picked subject ids stay unique |
| TutorApplication.UpdateSubjectProficiency | src/pages/TutorApplication.tsx:172-176 | only the matching entries' proficiency changes |
| TutorApplication.UpdateSubjectProficiencyLastWins | src/pages/TutorApplication.tsx:172-176 | ids stay unique, and the last proficiency chosen wins |
| TutorApplication.FilledEntries | src/pages/TutorApplication.tsx:198-199 | `filter(l => l.trim())`: the entries that are non-empty once trimmed, in their order and each as often as in the list |
| TutorApplication.HandleSubmit | src/pages/TutorApplication.tsx:178-225 | nothing is written exactly when no subject is picked; the row carries the form, the filled languages and certifications in order with every copy kept, and the kept or `pending` status; one subject row per pick |
| TutorApplication.HandleSubmitSubjectsUnique | src/pages/TutorApplication.tsx:215-219 | unique picks give distinct subject rows |
| TutorApplication.InitialFormSubmission | src/pages/TutorApplication.tsx:48-200 | a new application from the initial form keeps `English`, drops the blank certification, and is `pending` |
| TutorApplication.InitialListsFiltered | src/pages/TutorApplication.tsx:52-199 | on the initial lists, the filter keeps `English` and drops the blank certification |

## Left out

- Network, storage and database I/O: every store, storage and PayPal call is a `Query`, `Option` or `Upstream` parameter, and the realtime channel subscription is reduced to its handler (`Chat.ChatView.OnInsert`).
- Concurrency and React's render cycle: each handler is one atomic step. The one place where the stale closure state matters is logged under Findings.
- Floating point: amounts, ratings and ratios are exact reals. `Math.round` and `toFixed(2)` are not modelled.
- Dates: `parseISO`, `new Date`, `isSameDay`, month and year bounds, `setDate(1)` and `Date.now()` are parameters (`time`, `sameDay`, `Period`, `cutoff`, `now`).
- Case folding is ASCII only, and whitespace is the common ASCII set; JavaScript's full Unicode rules are not modelled.
- Store ordering (`.order(...)`) is an ORDER BY on a key in `AdminApplications.FetchApplications` and `Chat.History`: the rows come sorted on the key and as a permutation of the table's rows. The store does not fix the order of rows with equal keys, and `Seqs.SortBy` picks one (later rows first among equals); no contract depends on that choice. Elsewhere rows are taken in the order the query returns them.
- A `null` data field of a successful query is the empty list.
- The `availability` JSON column of `tutors` is not part of `Schema.TutorRow`: no modelled operation reads or writes it.
- The `Map` of the student summary is a Dafny `map` of values, so the aliasing of the `get`-then-mutate idiom is not modelled; `Students.CountSession` rebuilds the record instead.
- In `Students`, `payment?.amount` of a one-to-many join counts only when the join returns a single object (`PaidAmount`), as the code reads it.
- Fetch errors that only show a toast, and the loading flags, are not modelled.
- The rendering, badges, colours, icons, `getStatusColor` helpers, `formatMessageTime` and scrolling are not modelled.
- `getStudentName` in `src/pages/Students.tsx` is not modelled.
- `calculateSessionCost` and `getSessionDuration` are not modelled, because they are floating-point date arithmetic.
- The delete-then-insert of `tutor_subjects` on submission and the upsert's conflict handling are not modelled: `TutorApplication.HandleSubmit` yields rows, not a new table.
- The PayPal order body (`purchase_units`, return URLs) and the parsing of the request JSON are not modelled; a malformed body is not a case of `Checkout.PaymentsTable.Serve`.
- The CORS headers are not modelled: every response carries them.
- The calendar and conversation queries select the tutor's names nested as `tutor_profile:tutors(user_id, profiles!inner(first_name, last_name))` (src/pages/Calendar.tsx:57, src/pages/Messages.tsx:58), while the page reads them through the flat shape it declares (src/pages/Calendar.tsx:24-31). The model takes the declared flat shape (`Calendar.ParticipantSession`), so it does not capture that a learner viewer of the running page would see the `Tutor` fallback.
- Students.Summaries: states only the number of summaries; each summary's fields are stated by the `Tally…` lemmas, and `Students.BuildSummaries` is proved equal to it.
- Earnings.ComputeEarnings: its own contract states the count, the average and the zero case; every figure is fixed by `Earnings.NoPaymentsEarnNothing` for no payments and, one payment at a time, by `Earnings.CompletedPaymentCounts`, `Earnings.PendingPaymentCounts` and `Earnings.FailedAndRefundedIgnored`.
- Admin.Compute: its own contract states the counts; the two revenue figures are fixed by `Admin.NoPaymentsNoRevenue`, `Admin.CompletedPaymentRevenue` and `Admin.RevenueIgnoresUncompleted`.
- FileUpload.AdmittedFiles: states the length bound; its content is `FileUpload.AdmittedFilesFilter`.

## Findings

| source | as written | input that shows it | evidently intended | confidence | as-written member | corrected member |
|---|---|---|---|---|---|---|
| src/components/FileUpload.tsx:91 | `uploadIndex = uploads.length` reads the list of the render in which the selection arrived, so every file of one multi-file selection captures the same index | two files `a`, `b` selected together into an empty list with `multiple` on: both capture index 0, so `b`'s completion marks `a`'s entry and `b` stays uploading | each file's index is the position of its own entry (the earlier length plus its rank) | not executed | FileUpload.StaleIndexMisroutesCompletion | FileUpload.CapturedIndicesOwnEntries |
