# KAM-Udaan dashboard: a Dafny model of its data rules

KAM-Udaan is a key-account-management dashboard for restaurant leads. It is built with Next.js
route handlers and server actions over a PostgreSQL database reached through drizzle. This project
models its core:

- the seven tables of `configs/schema.js`, as an in-memory `Store` class;
- the route handlers and server actions that write those tables, as methods on the store that
  answer a status datatype: leads, contacts, users (create-user), calls (`/api/call`), orders
  marked complete, scheduled calls (the route and the `scheduleCall` and `markCallDone` actions);
- the read side: the performance report (`fetchPerformanceData`) and the three read-only list
  routes, as pure functions over the tables;
- the dashboard's own rules: the call-planning form (validity, request body, reset), the zod
  schemas of the lead and contact forms, and the top-N and chart selections of the performance
  overview.

Conventions:

- Money columns (`decimal(10, 2)`) are integer cents. Timestamps are integer seconds, and
  `DATE(t)` is `t / 86400`.
- "Now" and the first instants of the current and next month are parameters (`Clock`).
- A nullable column, or a JSON property that may be missing, is an `Option`. JavaScript
  truthiness is written out where a handler tests it: 0, "" and null are falsy.
- The lead and contact handlers pass the body to drizzle whole. There a property left out and
  one sent as `null` differ: an INSERT fills a left-out column with its default but writes
  NULL for `null`, and an UPDATE skips a left-out column but sets a `null` one to NULL. Those
  bodies, and the lead form, use `JsonField` (`Absent`, `Null`, `Value`). The other handlers
  name each column or test truthiness, where the two behave alike.
- A `varchar(n)` column rejects a longer string unless every character past the n-th is a
  space; it then stores the first n characters (`FitsVarchar`, `Varchar`). It counts
  characters, while zod's `.min(n)` counts UTF-16 code units (`Utf16Length`), so a character
  outside the Basic Multilingual Plane counts twice in the forms.
- SQL `ORDER BY` leaves the order of ties open. The model breaks ties stably, in table order, the
  way `Array.prototype.sort` does. PostgreSQL's default for `DESC` is NULLS FIRST, and the model
  follows it.
- Averages are kept as numerator and denominator, and are compared by cross-multiplication.

Behaviours modelled as written:

- The month's range ends at 00:00 on its last day.
- The upcoming-calls query passes its date condition as an ignored second argument to `where`.
- A completed call's duration in minutes is copied into an interaction field documented in
  seconds.
- `/api/call` stores its order outside any transaction.
- The scheduled-calls `PUT` does not re-check a call's status.

Files:

- `wrappers.dfy`: `Option`.
- `seqs.dfy`: generic sequence helpers, each with its contract:
  - filter, stable sort by key, `ORDER BY ... DESC` with NULLS FIRST, prefix (`LIMIT`);
  - the serial-key invariant of a table and lookup by id.
- `schema.dfy`: the row types and what a `varchar(n)` column accepts and stores.
- `js_strings.dfy`: JavaScript's string length in UTF-16 code units.
- `store.dfy`: the `Store` class and its single-statement writes, and the three-way JSON field.
- `performance.dfy`: the report.
- `performance_overview.dfy`: the dashboard selections.
- `call_actions.dfy`, `scheduled_calls.dfy`, `call_route.dfy`, `mark_complete.dfy`,
  `create_user.dfy`, `leads_route.dfy`, `contacts_route.dfy`, `read_routes.dfy`: the handlers.
- `call_planning.dfy`, `lead_form.dfy`, `contact_form.dfy`: the page logic.

## Model

| member | source | states |
|---|---|---|
| Database.Store.constructor | configs/schema.js:3-85 | an empty database whose seven tables are empty and serially keyed |
| Database.Store.InsertUser | configs/schema.js:4 | the new user takes the table's next serial id and is appended; ids stay unique and ascending |
| Database.Store.InsertLead | configs/schema.js:12 | the new lead takes the leads sequence's next id and is appended; ids stay unique and ascending |
| Database.Store.InsertContact | configs/schema.js:26 | the new contact takes the next id of its own sequence; ids stay unique and ascending |
| Database.Store.InsertOrder | configs/schema.js:39 | the new order takes the next id of its own sequence; ids stay unique and ascending |
| Database.Store.InsertInteraction | configs/schema.js:50 | the new interaction takes the next id of its own sequence; ids stay unique and ascending |
| Database.Store.InsertScheduledCall | configs/schema.js:75 | the new call takes the next id of its own sequence; ids stay unique and ascending |
| Database.Store.ReplaceLead | app/api/leads/route.jsx:33-36 | UPDATE by id replaces exactly that row; the others and the key invariant are kept |
| Database.Store.ReplaceContact | app/api/contacts/route.js:47-51 | UPDATE by id replaces exactly that row; the others and the key invariant are kept |
| Database.Store.ReplaceScheduledCall | app/api/interactions/scheduled-calls/route.jsx:93-95 | UPDATE by id replaces exactly that call; the others and the key invariant are kept |
| Database.Store.DeleteLead | app/api/leads/route.jsx:58-60 | DELETE by id removes exactly that row; the others keep their order; the key invariant holds |
| Database.Store.DeleteContact | app/api/contacts/route.js:73-76 | DELETE by id removes exactly that row; the others keep their order |
| Database.Store.DeleteScheduledCall | app/actions/mark-call-done.jsx:34 | DELETE by id removes exactly that call; the others keep their order |
| Seqs.KeyIsUnique | configs/schema.js:12 | in a serially keyed table no two rows share an id |
| Seqs.AppendKeepsSerial | configs/schema.js:4 | appending a row with the sequence's next value keeps ids unique, ascending and below the next value |
| Seqs.RemoveKeepsSerial | configs/schema.js:26 | deleting a row keeps the table serially keyed |
| Seqs.ReplaceKeepsSerial | configs/schema.js:39 | replacing a row by one with the same id keeps the table serially keyed |
| Seqs.RemovedKeyIsGone | app/actions/mark-call-done.jsx:34 | after the row with an id is deleted, a lookup of that id finds nothing |
| Seqs.IndexOf | app/actions/mark-call-done.jsx:11-14 | `WHERE id = $1`: a found position holds that id; a miss means no row has it |
| Seqs.Filter | app/api/contacts/route.js:12-15 | a WHERE filter keeps exactly the rows that satisfy it, each as often, in table order |
| Seqs.MaxOf | app/actions/fetchPerformanceData.jsx:18 | `MAX` ignores NULLs, is NULL iff every value is, and otherwise is a value attained that bounds all others |
| Seqs.SortByKey | app/actions/fetchPerformanceData.jsx:63 | the stable sort: a permutation of its input, in key order, with equal keys kept in input order |
| Seqs.SortByKeyOfSorted | app/dashboard/performance-tracking/_components/PerformanceOverview.jsx:31-32 | sorting an already ordered array changes nothing |
| Seqs.DescNullsFirstOrders | app/actions/fetchPerformanceData.jsx:23 | `ORDER BY x DESC`: a permutation with NULLs first and non-increasing values after them |
| Seqs.TakeOfSortedIsSmallest | app/api/call/potential-orders/route.jsx:18-19 | `ORDER BY ... LIMIT n` keeps the smallest keys: every row left out has a key at least every kept one |
| Seqs.TakeOfNullsFirstIsLatest | app/api/call/recent-orders/route.jsx:18-19 | `ORDER BY ... DESC LIMIT n` keeps the largest: a row left out is no later than any kept row |
| Seqs.TakeKeepsSorted | app/api/call/potential-orders/route.jsx:18-19 | a `LIMIT` of an ordered result is ordered |
| Seqs.TakeKeepsNullsFirst | app/api/call/recent-orders/route.jsx:18-19 | a `LIMIT` of a NULLS FIRST descending result keeps that order |
| Seqs.Take | app/dashboard/performance-tracking/_components/PerformanceOverview.jsx:176 | `slice(0, n)`: the first min(n, length) rows, in the order received |
| Schema.Varchar | configs/schema.js:13-19 | a `varchar(n)` column keeps a string that fits whole, and of a longer one accepted only for trailing spaces its first n characters |
| JsStrings.Utf16Length | app/dashboard/lead-management/page.jsx:21-29 | JavaScript's `length`: between the number of characters and twice it |
| JsStrings.Utf16LengthOfBmp | app/dashboard/lead-management/page.jsx:21-29 | for text without astral characters `length` is the number of characters |
| JsStrings.Utf16LengthOfAstral | app/dashboard/lead-management/page.jsx:21-29 | a leading astral character makes `length` exceed the character count |
| Schema.InteractionForCall | app/actions/mark-call-done.jsx:23-31 | a completed call becomes a 'call' interaction with status 'completed' and the call's lead, contact, notes and duration (minutes copied unconverted), with no rating and no order, stamped now |
| PerformanceData.RevenueRowFor | app/actions/fetchPerformanceData.jsx:12-22 | a lead's group: `orderCount` is the number of its orders; `totalRevenue` is their sum, and is NULL exactly when there are none |
| PerformanceData.RevenueRollup | app/actions/fetchPerformanceData.jsx:20-22 | LEFT JOIN then GROUP BY lead: one group per lead, in lead order |
| PerformanceData.RevenueDataRows | app/actions/fetchPerformanceData.jsx:12-23 | `revenueData` has exactly one row per lead, leads without orders included; it runs from NULL revenue through descending revenue |
| PerformanceData.RatingRowFor | app/actions/fetchPerformanceData.jsx:25-31 | a lead's rating group: interaction count, and the rated interactions' count and sum, so the average is NULL iff none is rated |
| PerformanceData.RatingRollup | app/actions/fetchPerformanceData.jsx:32-34 | one rating group per lead, in lead order |
| PerformanceData.SortByAvgDesc | app/actions/fetchPerformanceData.jsx:35 | a permutation of the rated groups by non-increasing average |
| PerformanceData.RatingDataRows | app/actions/fetchPerformanceData.jsx:25-34 | `ratingData` has exactly one row per lead, each that lead's group |
| PerformanceData.UnratedThenByAvg | app/actions/fetchPerformanceData.jsx:35 | NULLS FIRST: the unrated groups come before the rated ones, which follow by non-increasing average |
| PerformanceData.RatingDataOrder | app/actions/fetchPerformanceData.jsx:35 | `ratingData` is ordered by `AVG(rating) DESC` with the unrated leads first |
| PerformanceData.MonthlyRevenueOf | app/actions/fetchPerformanceData.jsx:37-42 | the month's order count, and its revenue, which is NULL iff no order falls in the range |
| PerformanceData.MonthRangeAsWritten | app/actions/fetchPerformanceData.jsx:10 | the range ends at 00:00 on the last day: an order later that day is excluded, one at 00:00 on the first day included |
| PerformanceData.AddToDay | app/actions/fetchPerformanceData.jsx:57-58 | adding an order to the day groups keeps them one per day, ascending, and adds its amount to its own day only |
| PerformanceData.Breakdown | app/actions/fetchPerformanceData.jsx:57-58 | `GROUP BY DATE(...) ORDER BY DATE(...)`: the day groups strictly ascend by date |
| PerformanceData.BreakdownGroups | app/actions/fetchPerformanceData.jsx:51-58 | a group exists exactly for each day with an order; its revenue is that day's sum; the groups total all orders |
| PerformanceData.MonthlyBreakdownAddsUp | app/actions/fetchPerformanceData.jsx:51-58 | each breakdown row is its day's sum of in-range orders, and the rows add up to `monthlyRevenue.totalRevenue` (none when it is NULL) |
| PerformanceData.EstimatedTotal | app/actions/fetchPerformanceData.jsx:45 | `SUM(estimated_amount)` skips NULL estimates and is NULL iff every estimate is NULL |
| PerformanceData.PotentialRevenueOf | app/actions/fetchPerformanceData.jsx:44-49 | counts the potential orders expected strictly after now and sums their estimates |
| PerformanceData.FindRating | app/actions/fetchPerformanceData.jsx:62 | `find` returns a row of the lead, or nothing when the lead has no row |
| PerformanceData.FindRatingIsFirst | app/actions/fetchPerformanceData.jsx:62 | `find` returns the first row with the lead's id |
| PerformanceData.LowPerformingLeadsSpec | app/actions/fetchPerformanceData.jsx:60-63 | keeps a lead iff it has fewer than 5 orders or an average below 3 (missing as 0); exactly a permutation of those filtered rows, which form a subsequence of `revenueData`, ascending by revenue (NULL as 0), ties in `revenueData` order |
| PerformanceData.UnratedLeadIsLowPerforming | app/actions/fetchPerformanceData.jsx:60-62 | a lead with no rated interaction is always low-performing |
| PerformanceData.LowPerformingExamples | app/actions/fetchPerformanceData.jsx:60-63 | 3 orders with average 4 is kept, 10 orders with average 2 is kept, 10 orders with average 4 is dropped |
| PerformanceData.ExampleClassification | app/actions/fetchPerformanceData.jsx:60-62 | a lead with 3 orders is low on orders, one with average 2 is low on rating, one with 10 orders and average 4 is neither |
| PerformanceData.FetchPerformanceData | app/actions/fetchPerformanceData.jsx:7-73 | the report: one revenue and one rating row per lead, low performers derived from those same rows, and a breakdown that adds up to the monthly total |
| PerformanceOverview.TopPerformersSpec | app/dashboard/performance-tracking/_components/PerformanceOverview.jsx:38-41 | at most 5 leads of `revenueData`, all with positive revenue, non-increasing; any positive lead left out earns no more than each listed |
| PerformanceOverview.TotalRevenue | app/dashboard/performance-tracking/_components/PerformanceOverview.jsx:43 | the sum of the top performers' revenues; non-negative, positive when there is a top performer |
| PerformanceOverview.RevenueChartSpec | app/dashboard/performance-tracking/_components/PerformanceOverview.jsx:17-24 | at most 10 positive, non-increasing bars whose first ones are the top performers |
| PerformanceOverview.RatingEntry | app/dashboard/performance-tracking/_components/PerformanceOverview.jsx:28 | `avgRating \|\| 0`: the lead's average, or 0 when it has none |
| PerformanceOverview.RatingChartData | app/dashboard/performance-tracking/_components/PerformanceOverview.jsx:26-29 | the first min(10, n) rating rows, in the order received |
| PerformanceOverview.MonthlyChartFollowsBreakdown | app/dashboard/performance-tracking/_components/PerformanceOverview.jsx:31-36 | the chart's date sort leaves the ascending breakdown as it is: one point per day, ascending |
| PerformanceOverview.RevenueTable | app/dashboard/performance-tracking/_components/PerformanceOverview.jsx:176 | the revenue table shows the first 5 rows as received |
| PerformanceOverview.LowPerformingTable | app/dashboard/performance-tracking/_components/PerformanceOverview.jsx:246 | the low-performing table shows the first 5 rows as received |
| CallActions.MarkCallDone | app/actions/mark-call-done.jsx:8-43 | success iff a call has the id; then one copied interaction is added and exactly that call is deleted, together; otherwise nothing is written; the call's status is not consulted |
| CallActions.MarkCallDoneTwice | app/actions/mark-call-done.jsx:11-34 | completing the same call again always fails and adds no interaction |
| CallActions.ScheduleCall | app/actions/schedule-call.jsx:8-36 | no validation: fails, writing nothing, iff a number is NaN or the date invalid; otherwise inserts the values as given with status 'scheduled' and no reminder sent, and answers the new id |
| ScheduledCallsRoute.RestaurantOf | app/api/interactions/scheduled-calls/route.jsx:20 | the left join yields the lead's restaurant, or NULL exactly when no lead has the id |
| ScheduledCallsRoute.ContactPersonOf | app/api/interactions/scheduled-calls/route.jsx:21 | the left join yields the contact's name, or NULL exactly when no contact has the id |
| ScheduledCallsRoute.UpcomingCalls | app/api/interactions/scheduled-calls/route.jsx:9-26 | one row per call whose status is 'scheduled', every row with that status, in ascending date order |
| ScheduledCallsRoute.DeletedCallLeavesList | app/actions/mark-call-done.jsx:34 | once the action has deleted a call, the list shows no row with its id |
| ScheduledCallsRoute.GetScheduledCalls | app/api/interactions/scheduled-calls/route.jsx:6-33 | GET answers the listed calls in ascending date order |
| ScheduledCallsRoute.UpcomingCallsSpec | app/api/interactions/scheduled-calls/route.jsx:9-26 | one row per call with status 'scheduled' and no other, joined with lead and contact, ascending by date, ties in table order |
| ScheduledCallsRoute.PastCallIsListed | app/api/interactions/scheduled-calls/route.jsx:22-25 | as written, a 'scheduled' call whose date has passed is still listed |
| ScheduledCallsRoute.PostScheduledCall | app/api/interactions/scheduled-calls/route.jsx:35-63 | 400 iff lead, contact, date or duration is falsy (0 included); 500 for an unparseable date; else one 'scheduled' row with no reminder sent, and its id |
| ScheduledCallsRoute.PutScheduledCall | app/api/interactions/scheduled-calls/route.jsx:65-103 | 400 for a falsy id, 404 for an unknown one, neither writing; else one copied interaction and that call's status set to 'completed', together, whatever its status was |
| ScheduledCallsRoute.ListedIds | app/api/interactions/scheduled-calls/route.jsx:22-25 | every listed row carries the id of a call whose status is 'scheduled' |
| ScheduledCallsRoute.CompletedCallLeavesList | app/api/interactions/scheduled-calls/route.jsx:93-95 | once PUT has completed a call, GET no longer lists it |
| ScheduledCallsRoute.OtherCallsStayListed | app/api/interactions/scheduled-calls/route.jsx:93-95 | completing one call leaves every other scheduled call listed |
| CallRoute.ResolvedContact | app/api/call/route.jsx:23-30 | for a primary contact the lead's own id, equal to the body's lead id, or none when no lead has it; otherwise the body's contact |
| CallRoute.PostCall | app/api/call/route.jsx:6-49 | the order is stored only when present and storable; the interaction only when every step succeeds, with the new order's id and its type and status as the varchar(50) columns hold them (trailing spaces past 50 dropped, other excess rejected); a later failure keeps the order |
| CreateUser.RoleOrDefault | app/api/create-user/route.jsx:33 | `user.role \|\| 'user'`: the given role when truthy, else 'user'; never empty |
| CreateUser.FindByUserId | app/api/create-user/route.jsx:17-21 | the lookup returns a row of the account, or nothing when no row has its id |
| CreateUser.FindByUserIdAppend | app/api/create-user/route.jsx:17-21 | once an account has a row, later inserts do not change which row is found |
| CreateUser.FindAfterCreate | app/api/create-user/route.jsx:36-41 | the row stored for a new account is the one later lookups find |
| CreateUser.CreateUser | app/api/create-user/route.jsx:6-54 | 400 without a truthy id, e-mail and username; an existing account's row returned unchanged; else one row inserted with role or 'user' |
| CreateUser.CreateUserTwice | app/api/create-user/route.jsx:17-30 | a second sign-in with the same id returns the same row and inserts nothing, ignoring a different role; the table grows by at most the first call's row; when the account was new, that row is the only one with its id |
| LeadsRoute.NewLeadRow | app/api/leads/route.jsx:10 | the stored lead fits its columns; each sent string, required or optional, is stored as its column holds it; the status is 'New' when left out; the notes are stored as sent; an optional column is NULL exactly when its property is left out or `null` |
| LeadsRoute.PostLead | app/api/leads/route.jsx:6-16 | 201 with one new row iff the NOT NULL columns have values (a `null` status fails, a left-out one defaults) and every string is accepted by its column, trailing spaces past the limit included; else 500 and no write |
| LeadsRoute.ApplyLeadPatch | app/api/leads/route.jsx:30-36 | keeps the id and both timestamps; for each of the eight columns, a left-out property keeps it, a `null` clears it (optional columns only), and a sent string is stored as the column holds it (the notes exactly as sent); an empty patch changes nothing; a lead that fits its columns still does |
| LeadsRoute.LeadPatchIdempotent | app/api/leads/route.jsx:33-36 | repeating the same update changes nothing further |
| LeadsRoute.PutLead | app/api/leads/route.jsx:28-47 | 500 for an empty patch or a string its column rejects; 404 when no lead has the id; 500 for a `null` on a NOT NULL column of the matched lead; else only that lead updated and returned |
| LeadsRoute.DeleteLead | app/api/leads/route.jsx:49-71 | 400 without an id, 500 for NaN, 404 for an unknown id, else only that lead removed; the other tables are untouched |
| ContactsRoute.ListContacts | app/api/contacts/route.js:6-25 | without `leadId` all contacts; with a number exactly the contacts of that lead, in table order; NaN gives 500 |
| ContactsRoute.NewContactRow | app/api/contacts/route.js:31-34 | the stored contact fits its columns and has the sent lead id; name, role, e-mail and phone are stored as their columns hold them, the e-mail and phone NULL exactly when left out or `null`; without `isPrimary` it is not primary, with `null` its flag is NULL, otherwise the sent flag |
| ContactsRoute.PostContact | app/api/contacts/route.js:27-40 | 201 with one new row iff lead, name and role have values and every string is accepted by its column, trailing spaces past the limit included; else 500 and no write |
| ContactsRoute.CreatedContactIsListed | app/api/contacts/route.js:11-16 | a created contact is listed for its lead and changes no other lead's list |
| ContactsRoute.ApplyContactPatch | app/api/contacts/route.js:44-51 | keeps the id and both timestamps; for each of the six columns, a left-out property keeps it, a `null` clears it (optional columns only), and a sent value is stored (a string as its column holds it); an empty patch changes nothing; a contact that fits its columns still does |
| ContactsRoute.PutContact | app/api/contacts/route.js:42-62 | 500 for an empty patch or a string its column rejects; 404 when no contact has the id; 500 for a `null` on a NOT NULL column of the matched contact; else only that contact updated |
| ContactsRoute.DeleteContact | app/api/contacts/route.js:64-87 | 400 without an id, 500 for NaN, 404 for an unknown id, else only that contact removed |
| ReadRoutes.JoinedLead | app/api/call/recent-orders/route.jsx:17 | the inner join pairs a row with the lead of its `leadId`, or drops it when there is none |
| ReadRoutes.JoinOrders | app/api/call/recent-orders/route.jsx:8-17 | exactly the orders that have a lead, each with its own lead's restaurant |
| ReadRoutes.RecentOrdersAreLatest | app/api/call/recent-orders/route.jsx:8-19 | min(5, n) joined orders, NULLS FIRST then descending by date, none left out more recent than one listed |
| ReadRoutes.GetRecentOrders | app/api/call/recent-orders/route.jsx:6-26 | min(5, n) of the orders that have a lead, NULL dates first then descending, and none left out more recent than a listed one |
| ReadRoutes.JoinPotentialOrders | app/api/call/potential-orders/route.jsx:8-17 | exactly the potential orders that have a lead, each with its restaurant |
| ReadRoutes.PotentialOrdersAreEarliest | app/api/call/potential-orders/route.jsx:8-19 | min(5, n) joined potential orders, ascending by expected date, none left out earlier than one listed; no date filter |
| ReadRoutes.CountRows | app/api/interactions/count-by-lead/route.jsx:14-16 | one count row per lead, in lead order |
| ReadRoutes.CountByLeadSpec | app/api/interactions/count-by-lead/route.jsx:8-17 | one row per lead, leads without interactions included, by non-increasing count |
| ReadRoutes.CountRowCounts | app/api/interactions/count-by-lead/route.jsx:12-15 | a lead's count is the number of its interactions, 0 exactly when it has none |
| CallPlanning.InteractionForm.constructor | app/dashboard/call-planning/page.jsx:18-29 | the form's initial state: nothing selected, type 'call', no rating, no order |
| CallPlanning.InteractionForm.IsFormValid | app/dashboard/call-planning/page.jsx:146-154 | a valid form has a lead, a contact and a rating; it is never valid during an interaction, nor with a placed order lacking amount or notes |
| CallPlanning.InteractionForm.EndInteraction | app/dashboard/call-planning/page.jsx:156-187 | nothing is sent iff `isFormValid` fails; the body is primary iff the contact is a 'primary_' string, then without contact id; status 'completed'; an order iff one was placed |
| CallPlanning.InteractionForm.ResetForm | app/dashboard/call-planning/page.jsx:218-227 | clears selections, notes, rating and order and restores type 'call', keeping the duration; the form is then invalid |
| CallPlanning.PrimaryChoiceExamples | app/dashboard/call-planning/page.jsx:169 | the `primary_<id>` entry is primary; a numeric contact id or no choice is not |
| LeadForm.LeadFormErrors | app/dashboard/lead-management/page.jsx:19-35 | no error iff every rule holds: the three names are strings of at least two UTF-16 units, the status is a string, nothing else is `null`, and a given e-mail is an address; any string status and any contact person, phone or notes pass; a left-out e-mail passes |
| LeadForm.EditFormRejectsNulls | app/dashboard/lead-management/page.jsx:195-197 | the edit dialog, reset to a stored lead, is rejected on each optional column that is NULL there, and always on a NULL e-mail |
| LeadForm.DefaultLeadFormErrors | app/dashboard/lead-management/page.jsx:48-57 | the untouched form fails on the three names, and on the e-mail whenever "" is not an address |
| LeadForm.AbsentEmailPasses | app/dashboard/lead-management/page.jsx:32 | an absent e-mail passes the optional e-mail rule |
| LeadForm.AcceptedFormInsert | app/dashboard/lead-management/page.jsx:19-35 | an accepted form has every NOT NULL column and no `null`, so the insert fails only on a string its column rejects, and stores the form's status |
| LeadForm.LongNameAcceptedThenRejected | app/dashboard/lead-management/page.jsx:21-23 | a 256-character name passes the schema but fails the varchar(255) column |
| ContactForm.ContactFormErrors | app/dashboard/contact-management/page.jsx:37-48 | no error iff every rule holds: a lead id, a name and a role of at least two UTF-16 units, an e-mail address, and a phone of at least ten UTF-16 units (so at least five characters) |
| ContactForm.SubmitMethod | app/dashboard/contact-management/page.jsx:117 | PUT iff the form's id is truthy, else POST |
| ContactForm.AddPostsEditPuts | app/dashboard/contact-management/page.jsx:273-276 | a form opened with "Add Contact" is always POSTed; one opened to edit a stored contact is PUT |
| ContactForm.AddContactFormErrors | app/dashboard/contact-management/page.jsx:37-48 | the untouched "Add Contact" form fails on every field but the lead id |
| ContactForm.AcceptedFormInsert | app/dashboard/contact-management/page.jsx:37-48 | an accepted form has every NOT NULL column, so the insert fails only on a string its column rejects, and stores a non-primary contact |

Marking an order complete, `app/api/call/mark-complete/[orderId]/route.jsx`, is modelled by
three members outside the table, since its path holds brackets:

- `MarkCompleteRoute.MarkOrderComplete` (lines 10-21): 400 with no write iff the id is NaN;
  otherwise 200 whether or not an order matches. The order with the id gets status
  'Completed' and keeps its other columns, and every other order is unchanged.
- `MarkCompleteRoute.MarkOrderCompleteTwice` (lines 17-21): marking the same order twice
  answers 200 both times and leaves the table as one marking does.
- `Database.Store.ReplaceOrder` (lines 17-19): the UPDATE by id replaces exactly that order;
  the others and the key invariant are kept.

## Left out

- Rendering, React hooks, dialogs, toasts and charts: presentation with no stateable rule. This
  includes the sidebar, the layout and the invoice print window.
- The simulated call timer (`Math.random`, `setInterval`) and the reminders' 60-second polling:
  they are timing-dependent and nondeterministic. `interactionDuration` is a plain field here.
- Authentication: calls into the identity provider's library.
- Floating point:
  - the `CAST ... AS FLOAT` results, the float averages and `parseFloat`;
  - average order value, progress percentages and currency formatting.
  - Money stays in exact cents. Averages stay as sum and count. The order amount typed in the
    call-planning form is carried as text.
- Calendar arithmetic and date formatting: "now" and the month bounds are the `Clock` parameter.
  The date-and-time string assembly of `scheduleCall` is its already-parsed `Option<Timestamp>`
  argument.
- The e-mail format check: zod's definition. It is the parameter `isEmail`.
- Database plumbing and failures outside the modelled rules: the connection, the ORM, lost
  connections. A transaction is one atomic method.
- Concurrent requests: each handler runs to completion before the next one starts, so a
  handler's reads and writes are one atomic step even where the source takes no lock. What
  this loses:
  - `markCallDone` reads the call before its transaction (app/actions/mark-call-done.jsx:11-14).
    Two concurrent completions both find it, and both insert an interaction.
  - create-user checks for the account and then inserts (app/api/create-user/route.jsx:17-41),
    and `users.user_id` has no unique constraint. Two concurrent first sign-ins insert two rows.
  - So CallActions.MarkCallDoneTwice and CreateUser.CreateUserTwice hold only for requests that
    run one after the other.
- The range of `integer` columns: ids, counts and durations are unbounded. Overflowing a 32-bit
  `integer` column is not modelled.
- An explicit `id` in a lead or contact body: the handlers pass the body through unfiltered, so
  it would replace the serial value without advancing the sequence. The payload types carry no
  id property.
- An explicit `createdAt` or `updatedAt` in a lead or contact body: drizzle converts a timestamp
  with `toISOString()`, which a JSON string lacks, so such a POST or PUT fails with 500. The
  payload types carry no timestamp properties, so this failure is not modelled.
- HTTP framing: `NextResponse` and request parsing. Answers are the `Response` datatype.
- `lead.orderCount < 5` compares the COUNT value, which node-postgres delivers as a string. The
  comparison coerces it back to a number, so it is modelled as a number.
- PerformanceOverview.MonthlyChartFollowsBreakdown: the chart's sort works in place on the
  caller's array. The model sorts a copy. The two agree because the breakdown arrives ascending.
- The thin pass-throughs `app/api/interactions/route.jsx` and the interaction-tracking list
  components: select-all reads with no rule.
- LeadsRoute.GetLeads and ContactsRoute.GetContacts: the store's table as it is, with no contract
  beyond that.
