# Paperlus subscription dashboard — a Dafny model

The Paperlus dashboard is an admin screen for a list of client users and
their plan subscriptions. One top-level component owns the subscription
records and the table filter. A paged table lists the users. Three dialogs
produce requests that the top-level component applies:

- the bulk dialog subscribes one plan to a set of checked users;
- the individual dialog subscribes a per-user plan to users picked by a
  multi-term search;
- the edit dialog changes or removes one user's subscription.

This project models those five components, plus the seed data they start
from.

- `Base`, `Text`, `Dates`: the JavaScript primitives the components depend
  on.
  - `Base` has options, "no repeats" and "subsequence of".
  - `Text` has ASCII `toLowerCase`, `includes`, `trim`, `split`/`join` and
    decimal rendering of counts.
  - `Dates` has calendar dates with the overflow that `Date.setDate`,
    `setMonth` and `setFullYear` perform (31 January plus one month is
    3 March, or 2 March in a leap year; 29 February plus one year is
    1 March).
- `Domain` holds the record types (user, plan, status, subscription) and the
  lookups `find`/`filter` on them.
- `Ledger` models the top-level component. The `class Dashboard` has the
  state the component keeps in `useState`. Its handlers are proved against
  pure functions on the record list, and lemmas about those functions give
  the properties.
  - Every assignment *replaces* the user's records: filter out, then append.
    Nothing stacks.
  - The start date is today. The end date comes from the plan's duration.
    An unknown duration text gives one year; "Lifetime" gives 100 years.
  - A bulk request with an unknown plan changes nothing.
  - An individual request skips entries with an unknown plan. When a user
    appears twice, the last entry wins.
  - Deleting removes all of a user's records.
  - At most one record per user is an invariant that every handler keeps.
  - With one record per user and an empty search, each filter tab's count
    equals the length of the list that tab shows. The counts themselves
    ignore the search.
- `UserTable` models the table. Pagination arithmetic (the number of pages,
  the slice for a page, the "Showing a to b of n" label, which page buttons
  and ellipses are shown) is pure functions. These are proved to partition
  the users exactly, and there are at most five buttons. The per-user cell
  (active beats expired beats "No Subscription", the latest end date, the
  primary record, the "(+N)" label) is pure functions too. The page, the
  page size and the hovered user are a `class Pager` whose handlers keep
  the current page in range.
- `IndividualModal`, `BulkModal`, `EditModal` are the three dialogs. Each
  is a class holding the dialog's `useState` fields, with pure functions
  for its derived lists and its payload.
  - Individual dialog: the `;`-separated search, add, remove, per-user
    plan, and confirm with its "Subscribe (N Users)" count.
  - Bulk dialog: checkbox toggling, and confirm only when enabled.
  - Edit dialog: the initial plan, the Save-disabled rule, the status
    colour, and the save and delete requests.
- `MockData`: the seed users, plans and records. Facts proved about them:
  - they hold one record per user;
  - the tab counts are 3 active, 1 expired, 4 without a subscription, 8 in
    all;
  - every seed record's end date is the one the dashboard computes from its
    plan and start date.

Time is a parameter: each handler that creates records receives `today` as
a date.

## Model

| member | source | states |
|---|---|---|
| Dates.DaysInMonth | src/components/dashboard/PaperlusDashboard.tsx:35-50 | a month has 28 to 31 days, and February has 29 exactly in leap years (Gregorian rule) |
| Dates.BeforeIsStrictTotalOrder | src/components/dashboard/UserTable.tsx:56-64 | the date order used to sort and compare records is irreflexive, transitive and total |
| Dates.NextDay | src/components/dashboard/PaperlusDashboard.tsx:35 | the next calendar day is a valid date strictly after the given one |
| Dates.NextDayIsImmediate | src/components/dashboard/PaperlusDashboard.tsx:35 | no date lies strictly between a day and its successor |
| Dates.AddDays | src/components/dashboard/PaperlusDashboard.tsx:35 | `setDate(getDate() + n)`: n successive calendar days, crossing month and year ends; its properties are AddDaysMonotone, AddDaysAdditive and AddDaysWithinMonth |
| Dates.AddDaysMonotone | src/components/dashboard/PaperlusDashboard.tsx:35 | adding days never moves back, and adding a positive number moves forward |
| Dates.AddDaysAdditive | src/components/dashboard/PaperlusDashboard.tsx:35 | adding a days and then b days is adding a + b days |
| Dates.AddDaysWithinMonth | src/components/dashboard/PaperlusDashboard.tsx:35 | inside one month, adding k days only raises the day number by k |
| Dates.DayOfMonthExact | src/components/dashboard/PaperlusDashboard.tsx:38-50 | a day number that exists in the target month is kept as it is |
| Dates.DayOfMonthOverflow | src/components/dashboard/PaperlusDashboard.tsx:38-50 | a day number past the month's end spills into the next month by the excess, as JavaScript's Date does |
| Dates.DayOfMonth | src/components/dashboard/PaperlusDashboard.tsx:38 | the date that day-of-month `day` names in a month, counted from its first day, so an overflowing day falls into the next month; DayOfMonthExact and DayOfMonthOverflow state both cases |
| Dates.AddMonths | src/components/dashboard/PaperlusDashboard.tsx:38 | `setMonth(getMonth() + n)`: the same day n months on, with day overflow into the following month; its properties are AddMonthsExact and EndOfJanuaryPlusOneMonth |
| Dates.AddYears | src/components/dashboard/PaperlusDashboard.tsx:41-50 | `setFullYear(getFullYear() + n)`: the same month and day n years on, with 29 February overflowing to 1 March; its properties are AddYearsExact and LeapDayPlusOneYear |
| Dates.AddOffset | src/components/dashboard/PaperlusDashboard.tsx:32-51 | applies a day, month or year offset; AddOffsetAfter proves every positive offset moves forward |
| Dates.AddOffsetAfter | src/components/dashboard/PaperlusDashboard.tsx:32-51 | every positive day, month or year offset ends strictly after the start date |
| Dates.AddMonthsExact | src/components/dashboard/PaperlusDashboard.tsx:38 | when the day exists in the target month, adding n months keeps the day and advances the month count by n across year boundaries |
| Dates.AddYearsExact | src/components/dashboard/PaperlusDashboard.tsx:41-50 | when the day exists in the target year, adding n years keeps month and day |
| Dates.LeapDayPlusOneYear | src/components/dashboard/PaperlusDashboard.tsx:41 | a one-year plan started on 29 February ends on 1 March of the following non-leap year |
| Dates.EndOfJanuaryPlusOneMonth | src/components/dashboard/PaperlusDashboard.tsx:38 | in a non-leap year, 31 January plus one month is 3 March (month overflow) |
| Text.LowerChar | src/components/dashboard/PaperlusDashboard.tsx:63 | lowercasing one character maps A-Z to a-z by the ASCII distance and leaves every other character alone |
| Text.Lower | src/components/dashboard/PaperlusDashboard.tsx:63-65 | `toLowerCase` keeps the length and lowercases each position |
| Text.LowerIdempotent | src/components/dashboard/modals/IndividualSubscriptionModal.tsx:41 | lowercasing twice equals lowercasing once, so an already-lowercased term matches like the raw one |
| Text.Contains | src/components/dashboard/PaperlusDashboard.tsx:63-66 | `includes`, defined by recursion on the haystack; ContainsIff ties it to the independent occurs-at-a-position definition |
| Text.ContainsIff | src/components/dashboard/PaperlusDashboard.tsx:63-66 | `includes` holds exactly when the needle occurs at some position of the haystack |
| Text.ContainsEmpty | src/components/dashboard/modals/BulkSubscriptionModal.tsx:30-31 | every string includes the empty string, so an empty search lists everyone |
| Text.LeadingSpaces | src/components/dashboard/modals/IndividualSubscriptionModal.tsx:41 | counts exactly the whitespace before the first non-space character |
| Text.IsSpace | src/components/dashboard/modals/IndividualSubscriptionModal.tsx:41 | the whitespace characters that `trim` removes: tab, vertical tab, form feed, space, no-break space, byte order mark, the Unicode space separators and the line terminators |
| Text.TrailingSpaces | src/components/dashboard/modals/IndividualSubscriptionModal.tsx:41 | counts exactly the whitespace after the last non-space character |
| Text.Trim | src/components/dashboard/modals/IndividualSubscriptionModal.tsx:41 | `trim` yields a contiguous slice of the input that neither starts nor ends with whitespace and drops only whitespace |
| Text.IndexOf | src/components/dashboard/modals/IndividualSubscriptionModal.tsx:41 | finds the first occurrence of the separator, or the length when there is none |
| Text.Split | src/components/dashboard/modals/IndividualSubscriptionModal.tsx:41 | `split(';')` yields at least one part and no part contains the separator |
| Text.Join | src/components/dashboard/modals/IndividualSubscriptionModal.tsx:41 | the inverse of `split`, interleaving the separator between parts; JoinSplit proves the round trip |
| Text.JoinSplit | src/components/dashboard/modals/IndividualSubscriptionModal.tsx:41 | joining the parts of a split with the separator rebuilds the original string, so no character is lost |
| Text.NatToString | src/components/dashboard/UserTable.tsx:87 | a count is rendered as a non-empty digit string without a leading zero |
| Text.DecimalValueOfNatToString | src/components/dashboard/UserTable.tsx:87 | reading the rendered digits back yields the count |
| Domain.FindPlan | src/components/dashboard/PaperlusDashboard.tsx:29 | `plans.find` returns a plan with the id exactly when one exists in the catalogue |
| Domain.FindUser | src/components/dashboard/PaperlusDashboard.tsx:210 | `users.find` returns a user with the id exactly when one exists |
| Domain.FirstIndex | src/components/dashboard/PaperlusDashboard.tsx:73 | the position of the user's first record: every earlier record belongs to someone else |
| Domain.FirstRecord | src/components/dashboard/PaperlusDashboard.tsx:211 | `subscriptions.find` by user returns a record exactly when the user has any, and it is the user's first record in list order |
| Domain.RecordsOf | src/components/dashboard/UserTable.tsx:40-42 | the user's records are exactly those with the user's id, kept in list order |
| Domain.HasRecord | src/components/dashboard/PaperlusDashboard.tsx:101-103 | some record belongs to the user (the `find` of the "none" count); FirstRecord is None exactly when it fails |
| Domain.HasRecordWith | src/components/dashboard/PaperlusDashboard.tsx:93-99 | some record of the user has the given status (the `find` of the active and expired counts) |
| Domain.RecordsWith | src/components/dashboard/UserTable.tsx:44-50 | the user's records with one status are exactly those, kept in list order |
| Ledger.DurationOffset | src/components/dashboard/PaperlusDashboard.tsx:33-51 | the duration text maps, if and only if, to 30 days, 3 months, 5 years or 100 years, and every other text (or a missing plan) to 1 year; the offset is always positive |
| Ledger.SubscriptionDates | src/components/dashboard/PaperlusDashboard.tsx:28-54 | `addSubscriptionDates` starts today and ends strictly later, at the plan's offset from today |
| Ledger.UnknownPlanGetsOneYear | src/components/dashboard/PaperlusDashboard.tsx:29-51 | a plan id missing from the catalogue falls to the default branch: one year from today |
| Ledger.NewRecord | src/components/dashboard/PaperlusDashboard.tsx:119-127 | a created record is active, carries the user, the plan's id and name, and the computed window |
| Ledger.Without | src/components/dashboard/PaperlusDashboard.tsx:196-199 | removing a user's records keeps exactly the other records, in order |
| Ledger.WithoutAll | src/components/dashboard/PaperlusDashboard.tsx:117 | removing several users' records keeps exactly the records of the users not named, in order |
| Ledger.Assign | src/components/dashboard/PaperlusDashboard.tsx:174-189 | one replace step: drop the user's records, append the new one; AssignKeepsOneRecordPerUser and AssignAllRecordsOf state its effect |
| Ledger.AssignAll | src/components/dashboard/PaperlusDashboard.tsx:146-163 | the replace steps for a list of new records, in order; AssignAllSplits and AssignAllRecordsOf state the result |
| Ledger.UserIds | src/components/dashboard/PaperlusDashboard.tsx:146 | the user ids of a record list, position by position |
| Ledger.LastFor | src/components/dashboard/PaperlusDashboard.tsx:154-160 | a record for the user among new records exists exactly when the user id occurs among them, and it is the last of the user's records, so the forEach's last write wins |
| Ledger.RecordsOfConcat | src/components/dashboard/UserTable.tsx:40-42 | the user's records in a concatenation are those of each part, in order |
| Ledger.RecordsOfWithout | src/components/dashboard/PaperlusDashboard.tsx:196-199 | after removing user w, w has no records and every other user's records are unchanged |
| Ledger.WithoutConcat | src/components/dashboard/PaperlusDashboard.tsx:117 | removing a user's records distributes over concatenation |
| Ledger.WithoutAbsent | src/components/dashboard/PaperlusDashboard.tsx:117 | removing a user without records changes nothing |
| Ledger.WithoutAllSnoc | src/components/dashboard/PaperlusDashboard.tsx:146 | removing users one by one equals removing them all at once |
| Ledger.WithoutIdempotent | src/components/dashboard/PaperlusDashboard.tsx:196-199 | removing the same user twice is removing once |
| Ledger.AssignAllRecordsOf | src/components/dashboard/PaperlusDashboard.tsx:146-163 | after replacing with new records one by one, a user has exactly the last new record for them, or their old records when there is none |
| Ledger.AssignAllSplits | src/components/dashboard/PaperlusDashboard.tsx:117-130 | replacing one by one equals dropping every named user's old records, then appending the new ones |
| Ledger.AssignAllFreshDistinct | src/components/dashboard/PaperlusDashboard.tsx:129-130 | new records for distinct users are appended unchanged and in order |
| Ledger.WithoutAllNone | src/components/dashboard/PaperlusDashboard.tsx:117 | removing no users changes nothing |
| Ledger.BulkRecords | src/components/dashboard/PaperlusDashboard.tsx:119-127 | the bulk request creates one record per selected id, in order, each for the same plan and window |
| Ledger.BulkAssign | src/components/dashboard/PaperlusDashboard.tsx:109-136 | `handleBulkSubscription`: nothing for an unknown plan, otherwise a replace per selected user with one shared window; BulkAssignKnownPlan states its outcome |
| Ledger.IndividualRecords | src/components/dashboard/PaperlusDashboard.tsx:146-160 | one new record per entry whose plan is known, in entry order; IndividualRecordsLastFor relates it to LastKnownEntry |
| Ledger.IndividualAssign | src/components/dashboard/PaperlusDashboard.tsx:138-165 | `handleIndividualSubscriptions`: the replace steps for those records; IndividualAssignOutcome states its outcome |
| Ledger.UpdateAssign | src/components/dashboard/PaperlusDashboard.tsx:167-192 | `handleUpdateSubscription`: nothing for an unknown plan, otherwise one replace; UpdateIsOneEntry, UpdateThenEditLookup and UpdateThenRow state its effect |
| Ledger.LastKnownEntry | src/components/dashboard/PaperlusDashboard.tsx:147-153 | an entry of the user whose plan exists, with no later entry of theirs naming a known plan (the last one), and none exactly when all the user's entries name unknown plans |
| Ledger.IndividualRecordsLastFor | src/components/dashboard/PaperlusDashboard.tsx:146-160 | the last created record for a user is built from the user's last entry with a known plan |
| Ledger.BulkAssignKnownPlan | src/components/dashboard/PaperlusDashboard.tsx:109-136 | with a known plan, every selected user ends with exactly one fresh record of that plan, and every other user's records are untouched; for distinct ids the new records are appended in selection order |
| Ledger.IndividualAssignOutcome | src/components/dashboard/PaperlusDashboard.tsx:138-165 | each user ends with one fresh record from their last known-plan entry, or keeps their old records; old records of all named users are dropped first |
| Ledger.UpdateIsOneEntry | src/components/dashboard/PaperlusDashboard.tsx:167-192 | changing one user's plan behaves as an individual request with that single entry |
| Ledger.DeleteOutcome | src/components/dashboard/PaperlusDashboard.tsx:194-202 | deleting leaves the user without records, leaves others untouched, and is idempotent |
| Ledger.WithoutKeepsOneRecordPerUser | src/components/dashboard/PaperlusDashboard.tsx:196-199 | deletion keeps at most one record per user |
| Ledger.AssignKeepsOneRecordPerUser | src/components/dashboard/PaperlusDashboard.tsx:174-189 | one replace step keeps at most one record per user |
| Ledger.AssignAllKeepsOneRecordPerUser | src/components/dashboard/PaperlusDashboard.tsx:117-130 | any sequence of replace steps keeps at most one record per user |
| Ledger.FirstRecordIsOnly | src/components/dashboard/PaperlusDashboard.tsx:211 | with one record per user, the first record found for a user is that user's record |
| Ledger.SearchMatches | src/components/dashboard/PaperlusDashboard.tsx:61-67 | the dashboard search: name, email or id contain the term ignoring case, or the phone contains it as typed |
| Ledger.StatusMatches | src/components/dashboard/PaperlusDashboard.tsx:70-86 | the tab test on the user's first record only; StatusMatchesIff ties it to having a record of that status when there is one record per user |
| Ledger.Listed | src/components/dashboard/PaperlusDashboard.tsx:57-89 | the search applies only to a non-empty term, and the status test only outside the "All" tab |
| Ledger.FilteredUsers | src/components/dashboard/PaperlusDashboard.tsx:57-89 | the listed users are exactly those matching the search (name, email or id ignoring case; phone as typed) and the tab's status test on their first record, in order; with no search, "All" lists everyone and the no-subscription tab lists exactly the users without records |
| Ledger.CountWith | src/components/dashboard/PaperlusDashboard.tsx:92-106 | a status count never exceeds the number of users |
| Ledger.CountWithout | src/components/dashboard/PaperlusDashboard.tsx:102-104 | the no-subscription count never exceeds the number of users |
| Ledger.CountWithPlusWithout | src/components/dashboard/PaperlusDashboard.tsx:92-106 | users with a record of one status and users without any record are disjoint: the two counts sum to at most the total |
| Ledger.Counts | src/components/dashboard/PaperlusDashboard.tsx:92-106 | the "All" tab counts every user, and the active and expired counts each leave room for the no-subscription count |
| Ledger.TabCountsMatchLists | src/components/dashboard/PaperlusDashboard.tsx:57-106 | with one record per user and an empty search, each tab's badge equals the length of the list the tab shows |
| Ledger.StatusMatchesIff | src/components/dashboard/PaperlusDashboard.tsx:70-85 | with one record per user, the first-record status test is equivalent to having a record with that status |
| Ledger.EditingSubscription | src/components/dashboard/PaperlusDashboard.tsx:211 | `subscriptions.find` for the edited id: there is none exactly when no user is being edited or the user has no record, and otherwise it is the user's first record in list order |
| Ledger.EditingUser | src/components/dashboard/PaperlusDashboard.tsx:210 | `users.find` for the edited id: there is none exactly when no user is being edited or no user has that id, and otherwise it is a user with that id |
| Ledger.UpdateThenEditLookup | src/components/dashboard/PaperlusDashboard.tsx:167-211 | after a plan change with a known plan, the edit dialog shows exactly the new record |
| Ledger.Dashboard.constructor | src/components/dashboard/PaperlusDashboard.tsx:12-23 | the dashboard starts with the seed records, the "Active" tab, an empty search and the edit dialog closed |
| Ledger.Dashboard.ShownUsers | src/components/dashboard/PaperlusDashboard.tsx:57-89 | the table receives users drawn from the directory, in directory order |
| Ledger.Dashboard.Tabs | src/components/dashboard/PaperlusDashboard.tsx:92-106 | the tab badges count every user under "All" |
| Ledger.Dashboard.EditedUser | src/components/dashboard/PaperlusDashboard.tsx:210 | the dialog's user prop, given by EditingUser on the current state |
| Ledger.Dashboard.EditedSubscription | src/components/dashboard/PaperlusDashboard.tsx:211 | the dialog's record prop, given by EditingSubscription on the current state |
| Ledger.Dashboard.SetFilter | src/components/dashboard/PaperlusDashboard.tsx:16 | switching a tab changes only the filter |
| Ledger.Dashboard.SetSearchTerm | src/components/dashboard/PaperlusDashboard.tsx:17 | typing in the search changes only the search term |
| Ledger.Dashboard.HandleBulkSubscription | src/components/dashboard/PaperlusDashboard.tsx:109-136 | the records become the bulk replacement; an unknown plan leaves them unchanged; one record per user is kept |
| Ledger.Dashboard.HandleIndividualSubscriptions | src/components/dashboard/PaperlusDashboard.tsx:138-165 | the records become the per-entry replacement; one record per user is kept |
| Ledger.Dashboard.HandleUpdateSubscription | src/components/dashboard/PaperlusDashboard.tsx:167-192 | the records become the one-user replacement; an unknown plan leaves them unchanged; one record per user is kept |
| Ledger.Dashboard.HandleDeleteSubscription | src/components/dashboard/PaperlusDashboard.tsx:194-202 | the records lose exactly the user's records; one record per user is kept |
| Ledger.Dashboard.HandleEditUser | src/components/dashboard/PaperlusDashboard.tsx:204-207 | opening the edit dialog records the user's id and shows the dialog |
| UserTable.TotalPages | src/components/dashboard/UserTable.tsx:21 | `Math.ceil(n / k)`: the fewest pages of k that hold n users, zero exactly when there are no users |
| UserTable.PageSizeOption | src/components/dashboard/UserTable.tsx:232-236 | the five page sizes the selector offers: 5, 10, 20, 50 and 100 |
| UserTable.SliceIndex | src/components/dashboard/UserTable.tsx:23-24 | a slice bound is clamped to the list's length, as `Array.slice` does |
| UserTable.Slice | src/components/dashboard/UserTable.tsx:24 | `slice(start, end)` yields the elements between the clamped bounds |
| UserTable.StartIndex | src/components/dashboard/UserTable.tsx:22 | the first index of a page from 1 on is not negative |
| UserTable.Min | src/components/dashboard/UserTable.tsx:242 | `Math.min` of the label's upper bound |
| UserTable.Page | src/components/dashboard/UserTable.tsx:22-24 | `paginatedUsers`: the slice from the page's first index, k long; PageSize, PagesUpToPrefix and PagesCoverUsers state what it holds |
| UserTable.PageSize | src/components/dashboard/UserTable.tsx:21-24 | a page holds at most k users, every page from 1 to the last holds at least one, and it is the exact slice starting at its first index |
| UserTable.PagesUpToPrefix | src/components/dashboard/UserTable.tsx:21-24 | pages 1 to m together are exactly the first m·k users |
| UserTable.PagesCoverUsers | src/components/dashboard/UserTable.tsx:21-24 | the pages 1 to the last, together, are exactly all users in order: no user is missed or repeated |
| UserTable.Range | src/components/dashboard/UserTable.tsx:242 | the "Showing a to b of n" numbers; RangeLabelMatchesPage ties them to the page shown |
| UserTable.RangeLabelMatchesPage | src/components/dashboard/UserTable.tsx:242 | "Showing a to b of n" names exactly the positions of the users on the page, and b is n on the last page |
| UserTable.ButtonShown | src/components/dashboard/UserTable.tsx:258-264 | the button filter: the first page, the last page, and every page within one of the current page |
| UserTable.ButtonsUpTo | src/components/dashboard/UserTable.tsx:258-268 | the buttons among pages 1..m are exactly the shown pages, ascending |
| UserTable.ShownPages | src/components/dashboard/UserTable.tsx:258-268 | a page button is shown exactly when it is the first, the last, or next to the current page, in ascending order |
| UserTable.Ellipsis | src/components/dashboard/UserTable.tsx:265-268 | an ellipsis before a button whose page is more than one past the previous button's; EllipsisMarksHiddenPages states what it marks |
| UserTable.EllipsisMarksHiddenPages | src/components/dashboard/UserTable.tsx:258-268 | an ellipsis precedes a button exactly when some existing page between it and the previous button is hidden |
| UserTable.AtMostFiveButtons | src/components/dashboard/UserTable.tsx:258-268 | at most five page buttons are ever shown |
| UserTable.PrevDisabled | src/components/dashboard/UserTable.tsx:251 | Previous is disabled on page 1; ClickPrevious uses it |
| UserTable.NextDisabled | src/components/dashboard/UserTable.tsx:292 | Next is disabled on the last page; ClickNext uses it |
| UserTable.StackedEnd | src/components/dashboard/UserTable.tsx:52-68 | `calculateStackedEndDate` is the latest end date of the records, ignoring records without one, and none exactly when no record has one |
| UserTable.StackedEndIgnoresOrder | src/components/dashboard/UserTable.tsx:56-61 | the stacked end date does not depend on the records' order, so sorting first changes nothing |
| UserTable.PrimaryIndex | src/components/dashboard/UserTable.tsx:70-77 | the primary record has the earliest start, and is the first such in list order (a stable sort's head) |
| UserTable.PrimaryIndexUnique | src/components/dashboard/UserTable.tsx:70-77 | any position that is earliest and first among the earliest is the primary one |
| UserTable.Primary | src/components/dashboard/UserTable.tsx:70-77 | `getPrimarySubscription` is a record with the earliest start date, and none exactly for no records |
| UserTable.FormatSubscriptionDisplay | src/components/dashboard/UserTable.tsx:79-90 | no display for no records; one record shows its plan name; several show the primary record's plan name with " (+N)" for the N others |
| UserTable.DisplayCountReadsBack | src/components/dashboard/UserTable.tsx:79-90 | the label is the primary record's plan name followed by " (+N)", whose N is a digit string whose value is the number of records beyond the primary one |
| UserTable.CountSuffix | src/components/dashboard/UserTable.tsx:183 | the " (+N)" suffix, empty when there are no other records; DisplayCountReadsBack reads N back |
| UserTable.EndsText | src/components/dashboard/UserTable.tsx:157 | the "Ends" text reads "Lifetime" exactly when there is no end date, and the date otherwise |
| UserTable.RowFor | src/components/dashboard/UserTable.tsx:121-196 | the subscription cell: the active display with the stacked end, else the first expired record with its count, else "No Subscription"; RowClassification states which branch is taken |
| UserTable.RowClassification | src/components/dashboard/UserTable.tsx:121-196 | the row shows an active cell exactly when the user has an active record, an expired cell exactly when expired but not active, and "No Subscription" otherwise |
| UserTable.PendingOnlyShowsNoSubscription | src/components/dashboard/UserTable.tsx:121-196 | a user whose only records are pending shows "No Subscription" yet is not listed under the no-subscription tab |
| UserTable.RecordsWithConcat | src/components/dashboard/UserTable.tsx:44-50 | the user's records of a status in a concatenation are those of each part, in order |
| UserTable.RecordsWithNone | src/components/dashboard/UserTable.tsx:44-50 | a user without records has none of any status |
| UserTable.UpdateThenRow | src/components/dashboard/UserTable.tsx:121-196 | after changing a user's plan to a known one, the row shows that plan alone, ending on the new end date |
| UserTable.DeleteThenRow | src/components/dashboard/UserTable.tsx:121-196 | after deleting, the user's row shows "No Subscription" |
| UserTable.AtMostOneWith | src/components/dashboard/UserTable.tsx:44-50 | with one record per user, a user has at most one record of each status |
| UserTable.OneRecordRowLabel | src/components/dashboard/UserTable.tsx:121-164 | with one record per user, an active row shows that record's plan name without a count and its own end date |
| UserTable.TooltipShown | src/components/dashboard/UserTable.tsx:162 | the tooltip shows for the hovered user only when they have more than one active record |
| UserTable.Pager.constructor | src/components/dashboard/UserTable.tsx:16-18 | the table starts on page 1 with 10 users per page and nobody hovered |
| UserTable.Pager.Shown | src/components/dashboard/UserTable.tsx:21-24 | the current page holds at most the page size, and at least one user when there are any |
| UserTable.Pager.HandlePageChange | src/components/dashboard/UserTable.tsx:31-33 | the current page becomes the requested page |
| UserTable.Pager.HandleItemsPerPageChange | src/components/dashboard/UserTable.tsx:35-38 | the page size becomes the chosen value and the page returns to 1, which is in range for an offered size |
| UserTable.Pager.ResetPage | src/components/dashboard/UserTable.tsx:27-29 | a change in the number of users or in the page size puts the table back on page 1, which is in range |
| UserTable.Pager.ClickPrevious | src/components/dashboard/UserTable.tsx:250-251 | Previous moves back one page except on page 1, and keeps the page in range |
| UserTable.Pager.ClickNext | src/components/dashboard/UserTable.tsx:291-292 | Next moves forward one page except on the last, and keeps the page in range |
| UserTable.Pager.ClickPage | src/components/dashboard/UserTable.tsx:278 | clicking a shown page button goes to that page, which is in range |
| UserTable.Pager.SetHovered | src/components/dashboard/UserTable.tsx:147-148 | hovering records the user (or none on leaving) |
| IndividualModal.Normalize | src/components/dashboard/modals/IndividualSubscriptionModal.tsx:41 | a normalised term is lower-case and neither starts nor ends with whitespace |
| IndividualModal.NonEmptyNormalized | src/components/dashboard/modals/IndividualSubscriptionModal.tsx:41 | the kept terms are exactly the non-empty normalised parts |
| IndividualModal.SearchTerms | src/components/dashboard/modals/IndividualSubscriptionModal.tsx:41-43 | the search terms are exactly the non-empty trimmed, lowercased `;`-parts of the input; none contains `;` |
| IndividualModal.NormalizeKeepsOut | src/components/dashboard/modals/IndividualSubscriptionModal.tsx:41 | normalising introduces no character that is not a lower-case letter |
| IndividualModal.SingleTerm | src/components/dashboard/modals/IndividualSubscriptionModal.tsx:41-43 | input without `;` is one term, or no term when it is blank |
| IndividualModal.MatchesField | src/components/dashboard/modals/IndividualSubscriptionModal.tsx:46-57 | a term matches the chosen field, ignoring case except for the phone; an unknown field matches everything |
| IndividualModal.Listed | src/components/dashboard/modals/IndividualSubscriptionModal.tsx:36-59 | a user is listed when not yet selected and some search term matches the chosen field |
| IndividualModal.FilteredUsers | src/components/dashboard/modals/IndividualSubscriptionModal.tsx:36-59 | the listed users are exactly the unselected ones for which some term matches the chosen field, in order; no terms lists nobody |
| IndividualModal.SelectedIds | src/components/dashboard/modals/IndividualSubscriptionModal.tsx:36-38 | the ids of the selection, position by position |
| IndividualModal.IsSelected | src/components/dashboard/modals/IndividualSubscriptionModal.tsx:37 | `selectedUsers.some(su => su.user.id === id)`: some entry holds a user with that id |
| IndividualModal.AfterAdd | src/components/dashboard/modals/IndividualSubscriptionModal.tsx:61-64 | adding keeps every earlier entry and appends exactly one entry, the user record itself with no plan chosen; the user is then selected, and the ids stay free of repeats when the user was not selected yet |
| IndividualModal.AddListedUser | src/components/dashboard/modals/IndividualSubscriptionModal.tsx:36-64 | adding a listed user keeps the selection free of repeats and removes the user from the list |
| IndividualModal.AfterRemove | src/components/dashboard/modals/IndividualSubscriptionModal.tsx:66-68 | removing keeps exactly the other selected users, in order, and the user is no longer selected |
| IndividualModal.RemoveAfterAdd | src/components/dashboard/modals/IndividualSubscriptionModal.tsx:61-68 | removing a user just added restores the selection |
| IndividualModal.AfterUpdatePlan | src/components/dashboard/modals/IndividualSubscriptionModal.tsx:70-76 | choosing a plan changes only that user's plan, leaving the order and every other entry alone |
| IndividualModal.UpdateUserPlanTwice | src/components/dashboard/modals/IndividualSubscriptionModal.tsx:70-76 | the last plan chosen for a user wins |
| IndividualModal.EntriesOf | src/components/dashboard/modals/IndividualSubscriptionModal.tsx:84-87 | the request entries pair each selected user's id with their plan, position by position |
| IndividualModal.Payload | src/components/dashboard/modals/IndividualSubscriptionModal.tsx:78-105 | the request holds exactly the entries with a plan, in selection order |
| IndividualModal.SubscribeCount | src/components/dashboard/modals/IndividualSubscriptionModal.tsx:277-279 | the count on the Subscribe button is the number of entries sent |
| IndividualModal.ConfirmDisabled | src/components/dashboard/modals/IndividualSubscriptionModal.tsx:277 | Subscribe is disabled with nobody selected or a selected user without a plan; EnabledConfirmSendsAll states what an enabled button sends |
| IndividualModal.PayloadAllPlanned | src/components/dashboard/modals/IndividualSubscriptionModal.tsx:78-105 | when every selected user has a plan, all of them are sent |
| IndividualModal.EnabledConfirmSendsAll | src/components/dashboard/modals/IndividualSubscriptionModal.tsx:277-279 | when the button is enabled, every selected user is sent and the button counts them all |
| IndividualModal.Dialog.constructor | src/components/dashboard/modals/IndividualSubscriptionModal.tsx:30-32 | the dialog starts searching by email, with an empty term and nobody selected |
| IndividualModal.Dialog.Listing | src/components/dashboard/modals/IndividualSubscriptionModal.tsx:34-59 | the dialog's `filteredUsers` on its current field, term and selection, given by FilteredUsers |
| IndividualModal.Dialog.SetSearchBy | src/components/dashboard/modals/IndividualSubscriptionModal.tsx:31 | choosing the search field changes only that field |
| IndividualModal.Dialog.SetSearchTerm | src/components/dashboard/modals/IndividualSubscriptionModal.tsx:32 | typing changes only the search term |
| IndividualModal.Dialog.AddUser | src/components/dashboard/modals/IndividualSubscriptionModal.tsx:61-64 | the selection gains the user at the end, and stays free of repeats when the user was listed |
| IndividualModal.Dialog.RemoveUser | src/components/dashboard/modals/IndividualSubscriptionModal.tsx:66-68 | the selection loses the user and stays free of repeats |
| IndividualModal.Dialog.UpdateUserPlan | src/components/dashboard/modals/IndividualSubscriptionModal.tsx:70-76 | the user's plan changes and the selection stays free of repeats |
| IndividualModal.Dialog.HandleConfirm | src/components/dashboard/modals/IndividualSubscriptionModal.tsx:78-105 | sends exactly the planned entries when there are any, then clears the selection and the term; otherwise nothing changes |
| IndividualModal.Dialog.HandleClose | src/components/dashboard/modals/IndividualSubscriptionModal.tsx:107-111 | closing clears the selection and the term |
| IndividualModal.RemoveKeepsDistinct | src/components/dashboard/modals/IndividualSubscriptionModal.tsx:66-68 | removing a user keeps the selection free of repeats |
| BulkModal.ListedUsers | src/components/dashboard/modals/BulkSubscriptionModal.tsx:29-32 | the listed users are exactly those whose name or email contains the term ignoring case, in order; an empty term lists everyone |
| BulkModal.RemoveId | src/components/dashboard/modals/BulkSubscriptionModal.tsx:37 | unchecking keeps exactly the other ids, in order |
| BulkModal.Toggle | src/components/dashboard/modals/BulkSubscriptionModal.tsx:34-40 | a checkbox flips the membership of its id and of no other; an unchecked id is appended at the end after the kept list, and unchecking keeps the other ids in their order |
| BulkModal.RemoveAbsent | src/components/dashboard/modals/BulkSubscriptionModal.tsx:37 | removing an id that is not checked changes nothing |
| BulkModal.RemoveLastAppended | src/components/dashboard/modals/BulkSubscriptionModal.tsx:36-38 | unchecking an id just checked restores the list |
| BulkModal.RemoveIdMultiset | src/components/dashboard/modals/BulkSubscriptionModal.tsx:37 | unchecking drops every copy of the id and nothing else |
| BulkModal.ToggleKeepsDistinct | src/components/dashboard/modals/BulkSubscriptionModal.tsx:34-40 | toggling keeps the checked ids free of repeats |
| BulkModal.ToggleTwice | src/components/dashboard/modals/BulkSubscriptionModal.tsx:34-40 | toggling twice restores the list when the id was unchecked, and the same set of ids when it was checked |
| BulkModal.CountOfDistinct | src/components/dashboard/modals/BulkSubscriptionModal.tsx:34-40 | a checked id occurs exactly once in a list without repeats |
| BulkModal.ConfirmDisabled | src/components/dashboard/modals/BulkSubscriptionModal.tsx:120 | Confirm is disabled without a plan or without a checked user; Dialog.HandleConfirm sends exactly when it is enabled |
| BulkModal.Dialog.constructor | src/components/dashboard/modals/BulkSubscriptionModal.tsx:25-27 | the dialog starts with no plan, no users checked and an empty search |
| BulkModal.Dialog.Listing | src/components/dashboard/modals/BulkSubscriptionModal.tsx:29-32 | the dialog's `filteredUsers` on its current term, given by ListedUsers |
| BulkModal.Dialog.SetPlan | src/components/dashboard/modals/BulkSubscriptionModal.tsx:69 | choosing a plan changes only the plan |
| BulkModal.Dialog.SetSearchTerm | src/components/dashboard/modals/BulkSubscriptionModal.tsx:27 | typing changes only the search term: the checked users and the plan stay |
| BulkModal.Dialog.HandleUserToggle | src/components/dashboard/modals/BulkSubscriptionModal.tsx:34-40 | a checkbox toggles its id and keeps the checked list free of repeats |
| BulkModal.Dialog.HandleConfirm | src/components/dashboard/modals/BulkSubscriptionModal.tsx:42-50 | sends the plan and the checked ids exactly when the Confirm button is enabled (line 120), then clears the dialog; otherwise nothing changes |
| BulkModal.Dialog.HandleClose | src/components/dashboard/modals/BulkSubscriptionModal.tsx:52-57 | closing clears the plan, the checked users and the search |
| EditModal.InitialPlan | src/components/dashboard/modals/EditUserModal.tsx:30-36 | the plan picker starts at the current record's plan, or empty without one |
| EditModal.SaveDisabled | src/components/dashboard/modals/EditUserModal.tsx:119 | with a record, Save is disabled when no plan or the current plan is picked; without one (line 155), when no plan is picked |
| EditModal.DisabledUntilChanged | src/components/dashboard/modals/EditUserModal.tsx:30-36 | right after the record changes, the reset leaves Save disabled (line 119) until a different plan is picked, and "Add Subscription" (line 155) until a plan is picked |
| EditModal.StatusName | src/types/dashboard.ts:16-24 | a status is spelled "active", "expired" or "pending" |
| EditModal.StatusColor | src/components/dashboard/modals/EditUserModal.tsx:52-59 | each of the three statuses gets its own class, and anything else (also no status) the neutral class |
| EditModal.StatusColorsDistinct | src/components/dashboard/modals/EditUserModal.tsx:52-59 | different statuses get different classes, none of them the neutral one |
| EditModal.Dialog.constructor | src/components/dashboard/modals/EditUserModal.tsx:28 | the dialog starts without user or record and with no plan picked |
| EditModal.Dialog.Renders | src/components/dashboard/modals/EditUserModal.tsx:61 | the dialog renders only with a user; HandleSave and HandleDelete send nothing without one |
| EditModal.Dialog.Receive | src/components/dashboard/modals/EditUserModal.tsx:30-36 | new props reset the picker to the record's plan, leaving Save disabled, only when the record differs from the previous one; otherwise the earlier pick stays |
| EditModal.Dialog.SelectPlan | src/components/dashboard/modals/EditUserModal.tsx:94 | picking a plan changes only the picked plan |
| EditModal.Dialog.HandleSave | src/components/dashboard/modals/EditUserModal.tsx:38-43 | sends the user's id and picked plan exactly when there is a user and a plan, which includes every case where Save is enabled |
| EditModal.Dialog.HandleDelete | src/components/dashboard/modals/EditUserModal.tsx:45-50 | sends the user's id exactly when there is a user |
| MockData.SeedHasOneRecordPerUser | src/data/mockData.ts:22-54 | the seed records hold at most one record per user |
| MockData.MockUsers | src/data/mockData.ts:3-12 | the eight seed users with their ids, names, emails and phones |
| MockData.MockPlans | src/data/mockData.ts:14-20 | the five catalogue plans with their duration texts and prices |
| MockData.MockSubscriptions | src/data/mockData.ts:22-54 | the four seed records, end dates included |
| MockData.SeedCounts | src/data/mockData.ts:3-54 | on the seed data the tabs read 3 active, 1 expired, 4 without a subscription and 8 in all |
| MockData.CountsFromFacts | src/components/dashboard/PaperlusDashboard.tsx:92-106 | eight users with records in the seed's pattern give exactly those tab counts |
| MockData.SeedRecordWith | src/data/mockData.ts:22-54 | each of the first four seed users has a record with their seed status |
| MockData.SeedNoRecordWith | src/data/mockData.ts:22-54 | each of the first four seed users has no record of any other status |
| MockData.NoRecordFor | src/data/mockData.ts:3-54 | the four remaining seed users have no record |
| MockData.SeedWindowsMatchPlans | src/data/mockData.ts:14-54 | for every seed record, the end date is what the dashboard computes from its plan and start date |
| MockData.SeedWindow0 | src/data/mockData.ts:23-30 | the first seed record's one-year window matches its plan |
| MockData.SeedWindow1 | src/data/mockData.ts:31-38 | the second seed record's five-year window matches its plan |
| MockData.SeedWindow2 | src/data/mockData.ts:39-46 | the third seed record's thirty-day trial window matches its plan |
| MockData.SeedWindow3 | src/data/mockData.ts:47-54 | the fourth seed record's three-month window matches its plan |
| MockData.OneYearPlanOffset | src/data/mockData.ts:14-20 | the one-year plan's end date from 5 August 2025 is one calendar year later |
| MockData.OneYearFromAugustFifth | src/components/dashboard/PaperlusDashboard.tsx:41 | one year from 5 August 2025 is 5 August 2026 |
| MockData.FiveYearPlanOffset | src/data/mockData.ts:14-20 | the five-year plan's end date from 5 August 2025 is five calendar years later |
| MockData.FiveYearsFromAugustFifth | src/components/dashboard/PaperlusDashboard.tsx:44 | five years from 5 August 2025 is 5 August 2030 |
| MockData.OnboardingPlanOffset | src/data/mockData.ts:14-20 | the onboarding plan's end date from 1 July 2025 is three calendar months later |
| MockData.ThreeMonthsFromJulyFirst | src/components/dashboard/PaperlusDashboard.tsx:38 | three months from 1 July 2025 is 1 October 2025 |
| MockData.ThirtyDaysFromFirstOfJune | src/components/dashboard/PaperlusDashboard.tsx:35 | thirty days from 1 June is 1 July in any year |

## Left out

- The clock and time zones: `new Date().toISOString()` becomes the `today` parameter, so UTC versus local time is not modelled. Every record of one individual request shares the same `today`.
- Toasts, the simulated loading timer, the progress bar and `isLoading`: the dialogs' confirm hands its request over at once.
- JSX rendering, layout and date-fns `format`: the model decides which cell, label and buttons are shown, not their markup. An expired record with an empty end date would make `format` throw in the table (UserTable.tsx:190); the model keeps that record's `Option` end date as it is.
- The table's badge `getStatusColor` (UserTable.tsx:92-99) and the tooltip markup (UserTable.tsx:162-174): these are presentational. The condition for showing the tooltip is `UserTable.TooltipShown`.
- `toLowerCase` lowercases ASCII letters only, and `trim` strips a fixed set of whitespace characters: full Unicode case mapping is not modelled.
- Lifetime plans: the code sets the end date 100 years ahead (PaperlusDashboard.tsx:47), and the model does the same; no "no expiry" sentinel end date is modelled.
- Stacking of subscriptions: the code replaces a user's records and never extends an existing window, so the model has no stacking.
- User names: the type declares `companyName` (types/dashboard.ts:3), which the table and the individual dialog read (UserTable.tsx:137, IndividualSubscriptionModal.tsx:50), while the dashboard's and bulk dialog's search read `name`. The model has one `name` field used by all of them.
- Subscription ids: the dashboard never sets `id`, so the model keeps it optional and never inspects it.
- UserTable.StackedEnd and UserTable.Primary: the source sorts a copy by start date before reducing. The model states the result directly, as the maximum end date and as the first earliest record. `StackedEndIgnoresOrder` and `PrimaryIndex` show that the sort's effect is captured.
- The individual dialog's Cancel button (IndividualSubscriptionModal.tsx:271) calls `onClose` directly, without the reset in `handleClose`, so its search and selection survive until the dialog is closed through `onOpenChange`. The model has only `HandleClose`.
- React's batching of state updates and the timing of `useMemo` and `useEffect`: each handler is one atomic step. `ResetPage` models the reset that runs when the number of users or the page size changes, as a step the caller takes. A new list of the same length, for example after a tab switch, keeps the current page.
- EditModal.Dialog.Receive: compares records by value, whereas React compares `currentSubscription` by reference. A record replaced by a new object with equal fields re-runs the effect in the source but not in the model.
- DashboardHeader and FilterTabs only lay out buttons and badges fed by the state modelled here, and are not part of this model.
- BulkModal.ToggleTwice: when the id was checked, toggling twice moves it to the end of the list. The contract therefore restores only the set of ids and not the order.
- UserTable.Pager.ClickNext and UserTable.Pager.ClickPage require the page size to be one of the offered options (5, 10, 20, 50, 100), the only values the page-size menu can produce.
- IndividualModal.Dialog.HandleConfirm: the source also calls `onClose`, and its toasts and timer are not modelled.
