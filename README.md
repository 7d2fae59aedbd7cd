# Neighbourhood classes: a Dafny model of the booking, credits and host flows

The application lets neighbours host and join small in-person classes.
Classes are paid for in credits, and each user has two balances:
- a *topped-up* balance, bought at £2 per credit;
- a *teaching* balance.

Only verified hosts may create classes. Anyone may apply to become a host, and administrators approve or reject those applications. The landing page lists every class, grouped by date, and collects what people would like to learn.

This project models the logic of those pages and components.

The data service is one object, `Store.Backend`. It holds every table, and its only operation performs one write that either succeeds or fails; the caller chooses which. Each page handler is then modelled twice:
- as a method that performs its writes against the backend, in order, and stops where the page stops;
- as a pure `...Run` function that returns the outcome and the list of writes that took effect.

The method is proved to leave the store equal to the old store with exactly those writes applied. Lemmas about the `...Run` functions then state what the page promises, and what it does not promise:
- the teaching-first debit;
- that a failed write is never rolled back;
- the top-up arithmetic;
- the order of approve's two writes;
- the untrimmed feedback stored on reject;
- the pending row a host application inserts.

Page state that the source updates in place is modelled as classes with `modifies` clauses:
- `Admin.ReviewPage` holds the feedback drafts;
- `ApplyHost.HostApplicationPage` holds the form and its error messages;
- `LearningInterest.InterestForm` holds the text box.

The loops of the source are methods with invariants, each proved against a reference definition:
- the `reduce` that groups classes by date;
- the `forEach` that files validation messages per field;
- the counting of learning interests.

The top-three selection has no loop in the source (`sort` then `slice`). It is a stable insertion sort, `SortByCount`, proved non-increasing and a permutation. The contract of `PopularInterests` then states the top three directly.

The presentational components are pure functions of their props. They are checked against one shared decision table, `Seats.StandingOf`, and against each other in `BookingControls`. That comparison shows that the class page's own button (bookings against capacity) and the card (remaining spots exactly 0) part ways for an overbooked class, while the other views agree.

Modules:
- `Js`: the JavaScript behaviour the pages rely on, written out:
  - `trim` with ECMAScript white space;
  - string length in UTF-16 code units;
  - integer-to-string;
  - the insertion order of object keys.
- `Store`: the rows, the tables, the writes and their effect, and the backend object.

## Model

| member | source | states |
|---|---|---|
| Store.Backend.Perform | src/pages/ClassDetail.tsx:136-143 | a request either fails and changes nothing, or succeeds and applies exactly its write |
| Store.LatestApplication | src/pages/ApplyHost.tsx:68-74 | `order by submitted_at desc limit 1`: none exactly when the user has no application; otherwise one of theirs with the latest submission time |
| ClassDetail.BookClass | src/pages/ClassDetail.tsx:110-184 | the handler's outcome, and the store afterwards is the old store with the successful writes (booking, debit, transaction, in that order) applied |
| ClassDetail.SignedOutWritesNothing | src/pages/ClassDetail.tsx:111-118 | without a session the handler asks for login and writes nothing |
| ClassDetail.InsufficientWritesNothing | src/pages/ClassDetail.tsx:122-132 | when both balances together (missing as 0) are below the cost, nothing is written and the cost is reported |
| ClassDetail.DebitTeachingFirst | src/pages/ClassDetail.tsx:145-156 | the cost is taken from the teaching balance first, and only the rest from the topped-up balance |
| ClassDetail.DebitMatchesLedgerRule | src/pages/ClassDetail.tsx:145-156 | teaching becomes max(0, teaching - cost), topped-up loses max(0, cost - teaching), and together they lose exactly the cost |
| ClassDetail.DebitNonNegative | src/pages/ClassDetail.tsx:122-156 | non-negative balances that cover the cost stay non-negative |
| ClassDetail.DebitNeedsNonNegativeStart | src/pages/ClassDetail.tsx:122-156 | the guard checks only the sum, so a negative topped-up balance can pass it and stay negative after the debit |
| ClassDetail.WritesArePrefixOfSequence | src/pages/ClassDetail.tsx:134-176 | whatever fails, the writes that happened are a prefix of booking, debit, transaction |
| ClassDetail.NoRollback | src/pages/ClassDetail.tsx:136-160 | a failed booking insert writes nothing; a failed debit leaves the inserted booking in place |
| ClassDetail.NullCreditsThrowAfterInsert | src/pages/ClassDetail.tsx:122-156 | with no credits row and a cost of at most 0, the booking is inserted and the handler then fails |
| ClassDetail.BookedExactly | src/pages/ClassDetail.tsx:134-176 | success exactly when the guard passes, a credits row is loaded and the booking and debit succeed; the transaction's failure is ignored; the logged amount is minus the cost |
| ClassDetail.BookedBalances | src/pages/ClassDetail.tsx:136-168 | after a successful booking the stored balances total the loaded total minus the cost, stay non-negative when they started so, and one booking row is appended |
| ClassDetail.HandlerIgnoresCapacityAndHost | src/pages/ClassDetail.tsx:110-184 | the handler's result does not depend on capacity, bookings or host |
| ClassDetail.ExampleThreePlusTwo | src/pages/ClassDetail.tsx:145-168 | 3 topped-up and 2 teaching credits, a class of 4: balances become 1 and 0 and -4 is logged |
| ClassDetail.HasBooking | src/pages/ClassDetail.tsx:85-87 | true exactly when one of the bookings belongs to the user |
| ClassDetail.IsBookedIff | src/pages/ClassDetail.tsx:85-87 | a load that sees a user sets `isBooked` exactly when they hold a booking of the class; a load that sees no user keeps the previous value, so a first load leaves it false |
| ClassDetail.MountMissesOwnBooking | src/pages/ClassDetail.tsx:49-87 | as written, the mount load sees no user, so a signed-in user holding a booking of a class with seats left is offered "Book This Class" and can book again |
| ClassDetail.IntendedMountShowsBooking | src/pages/ClassDetail.tsx:54-87 | with the session's user seen by the mount load, the booked notice shows exactly to a signed-in user holding a booking of the class |
| ClassDetail.PageButtonFullRule | src/pages/ClassDetail.tsx:350-354 | the page's button is disabled, and reads "Class Full", exactly when bookings reach capacity (null as 0) |
| Profile.TopUp | src/pages/Profile.tsx:106-144 | the handler's outcome; the store afterwards is the old store with the credits update and the log insert applied, each unless it failed, and nothing applied when the profile has not loaded |
| Profile.JoinedClasses | src/pages/Profile.tsx:85 | one entry per booking, in order, each the booking's class; no bookings gives an empty list |
| Profile.NoInputNoWrite | src/pages/Profile.tsx:107-108 | a dismissed or empty prompt does nothing |
| Profile.InvalidAmountNoWrite | src/pages/Profile.tsx:110-118 | NaN or less than £2 reports an invalid amount and writes nothing |
| Profile.MissingProfileWritesNothing | src/pages/Profile.tsx:120-132 | the handler throws before sending anything exactly when an accepted amount meets a profile that has not loaded (read at `profile.id`); it then writes nothing |
| Profile.CreditsForAccepted | src/pages/Profile.tsx:120 | an accepted amount buys at least 1 credit, one per whole £2: 2c <= pounds < 2c + 2 |
| Profile.TopUpEffect | src/pages/Profile.tsx:120-135 | topped-up becomes the loaded balance (missing as 0) plus the credits bought; teaching and other users are untouched; one "top_up" row is logged |
| Profile.LogDoesNotDependOnUpdate | src/pages/Profile.tsx:122-135 | the top-up is logged and reported as added even when the balance update failed |
| Profile.QueriesByRole | src/pages/Profile.tsx:59-98 | hosted classes are fetched exactly for verified hosts, the latest application exactly for everyone else |
| Admin.ReviewPage.constructor | src/pages/Admin.tsx:34 | no feedback drafts at first |
| Admin.ReviewPage.EditFeedback | src/pages/Admin.tsx:260-265 | typing changes only that application's draft |
| Admin.ReviewPage.Approve | src/pages/Admin.tsx:106-140 | outcome and new store follow `ApproveRun`: the application is set approved, then the profile is made verified |
| Admin.ReviewPage.Reject | src/pages/Admin.tsx:142-179 | outcome and new store follow `RejectRun`; after a successful reject only that application's draft is cleared |
| Admin.GateFetchesOnlyForAdmins | src/pages/Admin.tsx:40-78 | signed out goes to sign-in, a non-admin is denied, and applications are fetched exactly for a signed-in admin |
| Admin.PendingApps | src/pages/Admin.tsx:194 | every listed pending application has status pending |
| Admin.ReviewedApps | src/pages/Admin.tsx:195 | every reviewed application has a status other than pending |
| Admin.PartitionInterleaves | src/pages/Admin.tsx:194-195 | the listing is a merge of the pending and reviewed lists, each in listing order |
| Admin.PartitionCounts | src/pages/Admin.tsx:194-195 | the two lists together hold each application exactly as often as the listing |
| Admin.PartitionMembership | src/pages/Admin.tsx:194-195 | an application is pending-listed exactly when listed and pending, and reviewed-listed exactly when listed and not pending |
| Admin.FeedbackLengthBoundary | src/pages/Admin.tsx:143-151 | the rule is on the trimmed length: 9 characters are refused and 10 accepted whatever white space surrounds them; none is refused |
| Admin.PaddingIgnored | src/pages/Admin.tsx:143-144 | white space around a text with non-space ends does not change whether it is accepted as feedback |
| Admin.RejectNeedsFeedback | src/pages/Admin.tsx:143-151 | refused feedback writes nothing |
| Admin.RejectWritesUntrimmedFeedback | src/pages/Admin.tsx:154-161 | a reject sets status rejected, the review time, and the feedback as typed (untrimmed) |
| Admin.ApproveOrder | src/pages/Admin.tsx:109-125 | a failed first write changes nothing; a failed second write leaves the application approved and the profiles untouched; success does both |
| ApplyHost.ErrorFor | src/pages/ApplyHost.tsx:137-142 | no message exactly when no failure is on the field; otherwise the message of the last failure on it |
| ApplyHost.FieldErrors | src/pages/ApplyHost.tsx:137-142 | the `forEach` keeps, per field, the message of its last failure, and only fields with failures |
| ApplyHost.ErrorForLast | src/pages/ApplyHost.tsx:137-142 | a failure on a field with none after it is the one shown |
| ApplyHost.ExperienceIssuesEmptyIff | src/pages/ApplyHost.tsx:30-31 | experience rows pass exactly when each has a name and a years value of digits only |
| ApplyHost.LinkIssuesEmptyIff | src/pages/ApplyHost.tsx:38-39 | links pass exactly when each has a label and an accepted URL |
| ApplyHost.ValidIff | src/pages/ApplyHost.tsx:22-43 | the form passes exactly when bio and ideas have 30 characters and every row and link passes |
| ApplyHost.ExperienceIssuesField | src/pages/ApplyHost.tsx:29-33 | every failure of an experience row is filed under "experiences" |
| ApplyHost.LinkIssuesField | src/pages/ApplyHost.tsx:36-41 | every failure of a link row is filed under "proofLinks" |
| ApplyHost.FreshExperienceRowFails | src/pages/ApplyHost.tsx:85-90 | a newly added blank row blocks submission, and the years message is the one shown |
| ApplyHost.AddExperienceRow | src/pages/ApplyHost.tsx:85-90 | appends one blank experience and keeps the others |
| ApplyHost.AddLinkRow | src/pages/ApplyHost.tsx:108-113 | appends one blank link and keeps the others |
| ApplyHost.UpdateExperienceRow | src/pages/ApplyHost.tsx:92-98 | changes only the chosen field of the chosen row |
| ApplyHost.UpdateLinkRow | src/pages/ApplyHost.tsx:115-121 | changes only the chosen field of the chosen link |
| ApplyHost.RemoveRow | src/pages/ApplyHost.tsx:100-106 | drops exactly the row at the index, keeping the order of the rest; an index past the end changes nothing |
| ApplyHost.AddThenRemove | src/pages/ApplyHost.tsx:85-129 | adding a row and removing that row gives the list back |
| ApplyHost.EntryRedirect | src/pages/ApplyHost.tsx:61-83 | signed out goes to sign-in; the user is sent to the profile exactly when their latest application is pending |
| ApplyHost.InvalidSendsNothing | src/pages/ApplyHost.tsx:135-145 | a form that fails validation is never sent |
| ApplyHost.SubmitInsertsPending | src/pages/ApplyHost.tsx:153-160 | a valid submit appends one pending row with the text as typed and empty lists stored as null |
| ApplyHost.HostApplicationPage.constructor | src/pages/ApplyHost.tsx:49-55 | empty form, no messages |
| ApplyHost.HostApplicationPage.AddExperience | src/pages/ApplyHost.tsx:85-90 | the form's experiences become `AddExperienceRow` of the old ones; messages unchanged |
| ApplyHost.HostApplicationPage.EditExperience | src/pages/ApplyHost.tsx:92-98 | the form's experiences become `UpdateExperienceRow` of the old ones |
| ApplyHost.HostApplicationPage.RemoveExperience | src/pages/ApplyHost.tsx:100-106 | the form's experiences become `RemoveRow` of the old ones |
| ApplyHost.HostApplicationPage.AddLink | src/pages/ApplyHost.tsx:108-113 | the form's links become `AddLinkRow` of the old ones |
| ApplyHost.HostApplicationPage.EditLink | src/pages/ApplyHost.tsx:115-121 | the form's links become `UpdateLinkRow` of the old ones |
| ApplyHost.HostApplicationPage.RemoveLink | src/pages/ApplyHost.tsx:123-129 | the form's links become `RemoveRow` of the old ones |
| ApplyHost.HostApplicationPage.Submit | src/pages/ApplyHost.tsx:131-179 | the outcome and new store follow `SubmitRun`; messages are exactly the last failure per field |
| CreateClass.SubmitClass | src/pages/CreateClass.tsx:82-140 | outcome and new store follow `CreateRun`: one insert, only after validation passes |
| CreateClass.FailuresEmptyIff | src/pages/CreateClass.tsx:14-22 | no failure exactly when every rule passes |
| CreateClass.FirstFailure | src/pages/CreateClass.tsx:125-130 | the first failure reported is that of the earliest failing rule |
| CreateClass.ValidIff | src/pages/CreateClass.tsx:14-22 | the form passes exactly under the title, description, category, address, date, time and 1..8 hours rules |
| CreateClass.ShownMessageIsFirstBroken | src/pages/CreateClass.tsx:125-130 | the message shown is that of the first broken rule in schema order |
| CreateClass.ShortTitleFirst | src/pages/CreateClass.tsx:14-22 | a short title is reported first whatever else is wrong |
| CreateClass.InvalidInsertsNothing | src/pages/CreateClass.tsx:88-96 | an invalid class is not inserted |
| CreateClass.CreatedClassDefaults | src/pages/CreateClass.tsx:98-115 | a created class is the form plus the host's id, city and country, costs 5 and seats 10; only the classes table changes |
| CreateClass.GateOnlyVerified | src/pages/CreateClass.tsx:55-80 | the form is shown exactly to a signed-in user whose profile is verified |
| IndexPage.GroupByDate | src/pages/Index.tsx:57-64 | the keys are the dates in first-appearance order, and each date's group is that date's classes in order |
| IndexPage.Dates | src/pages/Index.tsx:57-64 | one date per class, in order |
| IndexPage.Positions | src/pages/Index.tsx:57-64 | the increasing positions of exactly the classes on a date |
| IndexPage.OnDateMembership | src/pages/Index.tsx:57-64 | a class is in a date's group exactly when it is listed on that date |
| IndexPage.EveryClassInItsGroup | src/pages/Index.tsx:57-64 | every class is in its date's group, and that date has a section |
| IndexPage.GroupKeepsOrder | src/pages/Index.tsx:57-64 | a group is the classes on its date in their fetched order |
| IndexPage.SectionsInFirstAppearanceOrder | src/pages/Index.tsx:91 | sections come in the order their dates first appear |
| IndexPage.EmptyIff | src/pages/Index.tsx:84-88 | "No classes available yet." exactly when nothing was fetched |
| IndexPage.GroupSizesSum | src/pages/Index.tsx:57-64 | the group sizes add up to the number of classes |
| IndexPage.CardFullIff | src/pages/Index.tsx:113 | a card's button is disabled exactly when its bookings equal its capacity |
| LearningInterest.CountInterests | src/components/landing/LearningInterestForm.tsx:31-34 | one key per distinct interest, in first-assignment order, each counted as often as it occurs (every interest treated as an ordinary key) |
| LearningInterest.InsertByCount | src/components/landing/LearningInterestForm.tsx:37 | inserting into a list sorted by count keeps it sorted and is a permutation |
| LearningInterest.SortByCount | src/components/landing/LearningInterestForm.tsx:37 | most frequent first, a permutation of the entries |
| LearningInterest.PopularInterests | src/components/landing/LearningInterestForm.tsx:31-39 | up to three distinct fetched interests, by non-increasing count, none left out more frequent than one kept (every interest treated as an ordinary key) |
| LearningInterest.TopThree | src/components/landing/LearningInterestForm.tsx:36-39 | the first three names of the sorted entries are the most frequent interests |
| LearningInterest.InterestForm.constructor | src/components/landing/LearningInterestForm.tsx:9 | the box starts empty |
| LearningInterest.InterestForm.Type | src/components/landing/LearningInterestForm.tsx:98 | the box holds what was typed |
| LearningInterest.InterestForm.Submit | src/components/landing/LearningInterestForm.tsx:47-84 | outcome and new store follow `SubmitRun`; the box is cleared only once the interest is stored |
| LearningInterest.RefusedIff | src/components/landing/LearningInterestForm.tsx:50-57 | refused exactly when blank or over 30 characters, and then nothing is stored |
| LearningInterest.StoredIsTrimmed | src/components/landing/LearningInterestForm.tsx:62-65 | the stored interest is the trimmed input, non-empty, at most 30 characters, with null user when signed out |
| Bullets.SplitFrom | src/components/class-detail/utils.ts:6 | one more piece than separators |
| Bullets.SplitRoundTrip | src/components/class-detail/utils.ts:6 | pieces joined with their separators give the text back, no piece holds a separator, and every separator is a whole match |
| Bullets.SplitJoin | src/components/class-detail/utils.ts:6 | splitting loses nothing |
| Bullets.SplitCutsEverySeparator | src/components/class-detail/utils.ts:6 | every separator is cut out: the pieces are separator-free |
| Bullets.MatchedIsSeparator | src/components/class-detail/utils.ts:6 | a match is a newline, the bullet mark, or a hyphen with all following white space |
| Bullets.TrimNonEmpty | src/components/class-detail/utils.ts:7-8 | the kept items are non-empty and already trimmed |
| Bullets.KeptPositions | src/components/class-detail/utils.ts:7-8 | the items are the trimmed pieces in order, and exactly those non-empty once trimmed |
| Bullets.MissingTextNoBullets | src/components/class-detail/utils.ts:2 | a missing or empty text gives no bullets |
| Bullets.AllSpaceNoBullets | src/components/class-detail/utils.ts:1-9 | white space only gives no bullets |
| Bullets.NoSeparatorOneBullet | src/components/class-detail/utils.ts:1-9 | a text without separators gives one bullet, itself trimmed |
| Bullets.HyphenInsideWord | src/components/class-detail/utils.ts:6 | "pre-book" stays one bullet |
| Bullets.HyphenStartsItem | src/components/class-detail/utils.ts:6 | "- a" gives the bullet "a" |
| Bullets.NewlineEndsItem | src/components/class-detail/utils.ts:6 | "a\nb" gives "a" and "b" |
| Seats.StandingOf | src/components/class-detail/BookingSidebar.tsx:40-57 | booking is offered exactly when neither booked nor hosting and seats are not 0 |
| Seats.SeatsLeftWording | src/components/class-detail/StickyBookingBar.tsx:38 | "seat" only for exactly one seat |
| ClassCard.ButtonAgreesWithLabel | src/components/ClassCard.tsx:69-169 | button disabled exactly when bookings equal capacity, exactly when the label says "Full" and the button "Session Full" |
| ClassCard.AlmostFullIncludesFull | src/components/ClassCard.tsx:69-156 | full and overbooked classes are also almost full; red tone exactly when full, orange exactly when 1 or 2 left (or overbooked) |
| ClassCard.OverbookedNotFull | src/components/ClassCard.tsx:69-169 | an overbooked card still offers "Join Session" and shows a negative count |
| ClassCard.SpotsWording | src/components/ClassCard.tsx:157 | "spot" only for exactly one remaining spot |
| BookingSidebar.SidebarFollowsStanding | src/components/class-detail/BookingSidebar.tsx:40-57 | booked notice, then hosting notice, then the button, disabled exactly at 0 seats |
| BookingSidebar.SidebarBookableIff | src/components/class-detail/BookingSidebar.tsx:40-57 | the button can be pressed exactly when not booked, not hosting, seats not 0 |
| BookingSidebar.BalanceLine | src/components/class-detail/BookingSidebar.tsx:24-38 | the balance shows exactly when credits are loaded, as the sum of both balances |
| StickyBookingBar.SeatsBadgeRule | src/components/class-detail/StickyBookingBar.tsx:36-40 | the seats badge shows exactly when seats are not 0, singular only for one |
| StickyBookingBar.BarFollowsStanding | src/components/class-detail/StickyBookingBar.tsx:43-59 | booked badge, then hosting badge, then the button, disabled exactly at 0 seats |
| ClassHero.OneSeatBadge | src/components/class-detail/ClassHero.tsx:46-56 | exactly one of the seats badge and the "Class Full" badge shows |
| ClassHero.HeroFollowsStanding | src/components/class-detail/ClassHero.tsx:60-70 | the button shows exactly when neither booked nor hosting, disabled exactly at 0 seats |
| ClassHero.BadgesIndependent | src/components/class-detail/ClassHero.tsx:74-88 | the booked badge, with its text as the file spells it, and the hosting badge can both show, with no button |
| LogisticsCard.AddressRule | src/components/class-detail/LogisticsCard.tsx:63-91 | the address shows exactly to a signed-in booked user; the log-in hint exactly when signed out |
| LogisticsCard.SeatsLine | src/components/class-detail/LogisticsCard.tsx:74-78 | "This class is full" exactly at 0 seats, singular for one |
| LogisticsCard.DurationWording | src/components/class-detail/LogisticsCard.tsx:53 | "hour" exactly for a duration of 1 |
| BookingControls.SeatViewsAgree | src/components/class-detail/BookingSidebar.tsx:23-57 | side panel, sticky bar and hero offer booking in exactly the same cases |
| BookingControls.CardAndPageAgreeUpToCapacity | src/pages/ClassDetail.tsx:350-354 | up to capacity, the card and the page disable booking in the same cases |
| BookingControls.OverbookedCardStillOpen | src/pages/ClassDetail.tsx:350-354 | for an overbooked class the page says "Class Full" while the card still offers booking |
| Js.TrimIdempotent | src/components/landing/LearningInterestForm.tsx:63 | trimming twice is trimming once |
| Js.TrimEmptyIff | src/components/landing/LearningInterestForm.tsx:50 | a trimmed string is empty exactly when the string is all white space |
| Js.InsertionOrderByFirstAppearance | src/pages/Index.tsx:91 | object keys come in the order of their first insertion |

## Findings

| source | as written | input that shows it | evidently intended | confidence | as-written member | corrected member |
|---|---|---|---|---|---|---|
| src/pages/ClassDetail.tsx:54-87 | the mount effect starts `fetchClassDetails` in the first render, whose `user` is still null (line 49), so the `if (user)` at line 85 is false and `isBooked` stays `false` | a signed-in user who already holds a booking of a class with seats left opens its page | the load sees the session's user and shows "You're booked" | medium, not executed | ClassDetail.MountMissesOwnBooking | ClassDetail.IntendedMountShowsBooking |

## Left out

- The data service, the network and authentication are modelled as a store plus flags: `fails` says which request fails, and a session is an optional user id. Row-level security and server-side triggers are not modelled.
- The `has_role` remote call is an answer the page receives (`RoleIs`), not computed.
- Concurrency is not modelled: two tabs booking the same class, or a balance changed between loading and debiting. The handlers run sequentially against the store.
- Rendering, routing, toasts, loading flags, icons, images and date formatting are not modelled. The date headings use date-fns, which is not part of this model.
- The validation library's URL check is the parameter `urlOk`.
- `parseFloat` on the prompt text is modelled as an already parsed `Option<real>`; None stands for NaN.
- Profile.TopUp: an amount that `parseFloat` reads as Infinity has no counterpart among the reals, so that input is not modelled.
- CreateClass.ClassForm: the duration field is already a whole number. The path where `parseInt` gives NaN is not modelled.
- Floating-point arithmetic is modelled as exact reals in `Profile.CreditsFor`. Rounding of amounts beyond 2^53 is not captured.
- The pages re-fetch after a write (`fetchClassData`, `fetchProfileData`, `fetchPopularInterests`). Those reloads are not modelled; the lemmas state the store after the writes.
- The handlers work on the values the page loaded. That staleness is made explicit as parameters (`cached`, `credits`).
- Store.LatestApplication: when two of the user's applications share the latest `submitted_at`, the model picks the first of them in list order. The data service returns any one of them. The contract promises only one with the latest time, but `ApplyHost.EntryCheck` is stated through the function's value, so it inherits this fixed tie-break.
- LearningInterest.CountInterests: the source counts into a plain object `{}`, and the model treats every interest as an ordinary key. Interests named after `Object.prototype` properties are miscounted by the source: `__proto__` adds no key, and `constructor` or `toString` start from the inherited function, so their count is a string. Integer-like interests are listed first in ascending order, not in first-assignment order.
- LearningInterest.PopularInterests: follows the same ordinary-key counting, so its top-three contract does not describe the source for interests named after `Object.prototype` properties. For example, `["__proto__"]` gives `[]` in the source. `["constructor","a","a"]` keeps `"constructor"` first, because the `NaN` comparison leaves the order unchanged.
- LearningInterest.PopularInterests: when counts tie, the model promises no particular order. The source follows the insertion order of object keys, where integer-like keys come first. Only the non-increasing order and the choice of the most frequent are stated.
- The `limit(100)` on the fetched learning interests is not modelled; the rows given are the fetched rows.
- The administrator page reads the application columns under other names than the host-application form writes. Only the columns the modelled handlers touch are modelled.
- ApplyHost.UpdateExperienceRow: requires the index to be within the list, because the page only passes indices of rows it shows.
- ApplyHost.UpdateLinkRow: requires the index to be within the list, for the same reason.
- ApplyHost.HostApplicationPage.EditExperience: requires the index to be within the list, for the same reason.
- ApplyHost.HostApplicationPage.EditLink: requires the index to be within the list, for the same reason.
- CreateClass.CreateRun takes the host's profile as loaded, since the form is only shown once it is.
- The marketing sections, navigation, footer, the all-classes page and the data-service client are not part of this model.
- The text `You're booked` in the sticky bar (`StickyBookingBar.Bar`) and the hero's booked badge (`ClassHero.BookedBadgeText`) carries the mis-encoded check mark exactly as the files spell it.
