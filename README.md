# Lead management dashboard, modelled in Dafny

This project models the core of a small lead-management dashboard made of an
Express/Mongoose back end and a React front end:

- the lead record and its schema (`Lead.js`): two closed enumerations, the
  defaults, the trim/lowercase setters, required-field and enumeration
  validation, and a store insert guarded by the unique index on email;
- the list route `GET /api/leads` (`leads.js`): reading the query string with
  its defaults, the conjunctive filter on day, search, stage and status, the
  sort on one field, the `skip`/`limit` page and the `total`/`pages`
  pagination; and the detail route `GET /api/leads/:id`;
- the analytics route `GET /api/analytics/summary` (`analytics.js`):
  the same day filter, total and converted counts, the `$group`/`$sort`
  pipelines by stage and by status, and the conversion rate;
- the seed generator `generateLeads(count)` (`seed.js`): its loop and the
  cyclic day-of-month distribution;
- the dashboard component (`Dashboard.jsx`): `getInitials`, the sort-order
  toggle, the previous/next page buttons, the reset to page 1, and the
  `URLSearchParams` sent to the list route.

The document store is a sequence of `Lead` values in insertion order. The
current time and everything random (faker, `Math.random`) are parameters.

Modules and files:

| file | module | models |
|---|---|---|
| wrappers.dfy | `Wrappers` | `Option`, `Result`, `Min`, `Max` |
| text.dfy | `Text` | the JavaScript string operations used: `trim`, `toLowerCase`, `toUpperCase`, substring search, the store's string order, `String(n)`, `parseInt`, `split(' ')` |
| calendar.dfy | `Calendar` | calendar-tuple timestamps and the one-day window |
| lead.dfy | `LeadModel` | `Lead.js`; the store is the class `LeadStore` |
| leads.dfy | `LeadsRoute` | `leads.js` |
| analytics.dfy | `AnalyticsRoute` | `analytics.js` |
| seed.dfy | `Seed` | `generateLeads` in `seed.js` |
| dashboard.dfy | `Dashboard` | `Dashboard.jsx`; its state is the class `DashboardState` |

The imperative parts keep their form:

- the store insert and the dashboard's state changes are methods on classes;
- the conditional building of the filter document is the method
  `LeadsRoute.BuildQuery` (and `AnalyticsRoute.BuildSummaryQuery`);
- the seed loop is the method `Seed.GenerateLeads`, with loop invariants;
- the handlers are methods that compose the pure parts, and each is proved
  against the function that specifies it.

## Model

| member | source | states |
|---|---|---|
| LeadModel.ParseStage | backend/src/models/Lead.js:24-27 | a stage string is accepted exactly when it is one of the five enum values, and then it denotes the stage with that label |
| LeadModel.ParseStatus | backend/src/models/Lead.js:29-32 | a status string is accepted exactly when it is one of the three enum values, and then it denotes that status |
| LeadModel.StageLabelRoundTrip | backend/src/models/Lead.js:24-28 | every stage is stored as one of the five enum strings, and parsing its label gives the stage back |
| LeadModel.StatusLabelRoundTrip | backend/src/models/Lead.js:29-33 | every status is stored as one of the three enum strings, and parsing its label gives the status back |
| LeadModel.NormalizeEmail | backend/src/models/Lead.js:9-15 | the stored email is the lower-cased input with only its surrounding whitespace removed; it is trimmed and lower-case |
| LeadModel.NormalizeEmailIdempotent | backend/src/models/Lead.js:13-14 | normalising an email twice equals normalising it once |
| LeadModel.CollectErrors | backend/src/models/Lead.js:4-33 | the error list is empty exactly when every path passes, and holds one error naming each failing path (name, email, the bad stage value, the bad status value) |
| LeadModel.FieldErrors | backend/src/models/Lead.js:4-33 | a document has no validation error exactly when the trimmed name and the normalised email are non-empty and any given stage and status are enum values; each error is present exactly when its condition fails |
| LeadModel.CastLead | backend/src/models/Lead.js:3-42 | an invalid document is refused with exactly its errors; a valid one is accepted, well-formed, with trimmed name, phone and company, the normalised email, stage New and status Active when absent (else the given ones), notes "" and createdAt = now when absent |
| LeadModel.InsertOutcome | backend/src/models/Lead.js:12 | an accepted insert is the cast lead and no stored lead has its email; validation failures come exactly from casting |
| LeadModel.DuplicateRejectedIff | backend/src/models/Lead.js:12 | a valid document is refused exactly when a stored lead already has its normalised email |
| LeadModel.InsertKeepsInvariant | backend/src/models/Lead.js:9-15 | appending an accepted lead keeps emails unique, ids unique and below the counter, and every lead well-formed |
| LeadModel.AppendKeepsInvariant | backend/src/models/Lead.js:12 | appending a well-formed lead with a new email and the next id keeps the store's invariants |
| LeadModel.LeadStore.Insert | backend/src/models/Lead.js:12 | the store keeps its invariant; an accepted lead is appended and the counter advances; a refused document leaves the store unchanged |
| Text.Trim | backend/src/models/Lead.js:7 | the input is whitespace, then the result, then whitespace; the result has no whitespace at either end; a trimmed string is left as it is |
| Text.TrimIdempotent | backend/src/models/Lead.js:7 | trimming twice equals trimming once |
| Text.Lower | backend/src/models/Lead.js:13 | same length, each character mapped to lower case |
| Text.LowerIsLowerCase | backend/scripts/seed.js:28 | a lower-cased string is lower-case |
| Text.LowerOfLowerCase | backend/src/models/Lead.js:13 | lower-casing a lower-case string changes nothing |
| Text.Upper | frontend/src/components/Dashboard.jsx:67 | same length, each character mapped to upper case |
| Text.ContainsIffOccurs | backend/src/routes/leads.js:33-39 | the substring test holds exactly when the text occurs at some position |
| Text.LexLeReflexive | backend/src/routes/analytics.js:37 | the store's string order is reflexive |
| Text.LexLeTotal | backend/src/routes/analytics.js:37 | any two strings are ordered one way or the other |
| Text.LexLeTransitive | backend/src/routes/analytics.js:37 | the string order is transitive |
| Text.LexLeAntisymmetric | backend/src/routes/analytics.js:37 | two strings ordered both ways are equal |
| Text.DecimalValue | frontend/src/components/Dashboard.jsx:29-30 | the digits of `String(n)` have the value n |
| Text.ParseDecimal | backend/src/routes/leads.js:52-53 | `parseInt(String(n))` is n |
| Text.ParseIntReads | backend/src/routes/leads.js:52-53 | `parseInt` of leading whitespace, an optional `-` or `+`, a run of digits and a rest that does not start with a digit is the signed value of the digits, whatever the rest holds |
| Text.ParseIntNaN | backend/src/routes/leads.js:52-53 | `parseInt` is NaN (None) when no digit follows the leading whitespace and the optional sign |
| Text.SplitSpaces | frontend/src/components/Dashboard.jsx:67 | splitting on a space gives at least one piece |
| Text.JoinSplit | frontend/src/components/Dashboard.jsx:67 | joining the pieces of `split(' ')` with a space gives back the string |
| Text.SplitHasNoSpace | frontend/src/components/Dashboard.jsx:67 | no piece of `split(' ')` contains a space |
| Calendar.NotAfterTotalPreorder | backend/src/routes/leads.js:28 | the instant order is reflexive, total, transitive and antisymmetric |
| Calendar.InDayWindow | backend/src/routes/leads.js:26-28 | an instant lies in the window from 00:00:00 to 23:59:59 of a day exactly when it falls on that day |
| LeadsRoute.Lookup | backend/src/routes/leads.js:9-18 | a found value is paired with the key in the query string, and nothing is found exactly when no pair has the key |
| LeadsRoute.ReadQuery | backend/src/routes/leads.js:9-18 | each key absent from the query string takes its default ("" for the filters and day, createdAt, desc, 1 and 10); a present key takes a value sent with it |
| LeadsRoute.ParseRequest | backend/src/routes/leads.js:23-53 | the request parses exactly when page, limit and a non-empty day are numbers; it then holds their parsed values and passes the other parameters through unchanged |
| LeadsRoute.DayWindowIsDay | backend/src/routes/leads.js:23-28 | the `$gte`/`$lte` window keeps exactly the instants on that day of the current year and month |
| LeadsRoute.BuildQuery | backend/src/routes/leads.js:21-58 | the filter document matches a lead exactly when it is on the requested day, contains the search text in name, email or company, and has the requested stage and status, an empty parameter imposing nothing; the sort is on the named field, ascending exactly when sortOrder is "asc" |
| LeadsRoute.Filter | backend/src/routes/leads.js:61 | the result keeps exactly the elements that satisfy the predicate, each as many times as it occurs in the input, and is never longer |
| LeadsRoute.FilterAppend | backend/src/routes/leads.js:61 | filtering keeps the store order: the filter of a concatenation is the concatenation of the filters |
| LeadsRoute.FilterSamePredicate | backend/src/routes/leads.js:61-67 | filters with equivalent predicates select the same leads in the same order |
| LeadsRoute.NoFilterSelectsAll | backend/src/routes/leads.js:23-49 | with no day, search, stage or status every lead is selected |
| LeadsRoute.KeyLeTotal | backend/src/routes/leads.js:62 | any two sort keys are ordered one way or the other |
| LeadsRoute.KeyLeTransitive | backend/src/routes/leads.js:62 | the sort-key order is transitive |
| LeadsRoute.PrependSorted | backend/src/routes/leads.js:62 | a lead that may precede every element of a sorted sequence can go in front |
| LeadsRoute.AheadOfAll | backend/src/routes/leads.js:62 | a lead that may not follow the first element of a sorted sequence may precede all of it |
| LeadsRoute.InsertByKeyPermutes | backend/src/routes/leads.js:62 | inserting a lead adds exactly that lead |
| LeadsRoute.InsertByKeySorted | backend/src/routes/leads.js:62 | inserting into a sorted sequence keeps it sorted |
| LeadsRoute.SortLeads | backend/src/routes/leads.js:57-62 | the result is sorted on the field in the requested direction and is a permutation of the input |
| LeadsRoute.CeilDiv | backend/src/routes/leads.js:76 | `Math.ceil(total / limit)`: the fewest pages of `limit` that hold `total`, and 0 pages exactly when `total` is 0 |
| LeadsRoute.Window | backend/src/routes/leads.js:63-64 | `skip` then `limit`: the elements from position skip on, at most limit of them |
| LeadsRoute.PageSlice | backend/src/routes/leads.js:52-64 | page p holds at most limit elements, those that start at (p-1)·limit of the input |
| LeadsRoute.PageOfSortedIsSorted | backend/src/routes/leads.js:61-64 | a page of a sorted sequence is sorted |
| LeadsRoute.WindowOfSortedIsSorted | backend/src/routes/leads.js:63-64 | a window of a sorted sequence is sorted |
| LeadsRoute.ConcatPagesIsPrefix | backend/src/routes/leads.js:52-64 | pages 1 to n laid end to end are the first n·limit elements |
| LeadsRoute.PrefixThenWindow | backend/src/routes/leads.js:63-64 | the elements before skip followed by the window at skip are the elements before skip + limit |
| LeadsRoute.PagesPartition | backend/src/routes/leads.js:52-76 | pages 1 to `pages` laid end to end reproduce the whole sequence, each element once, in order |
| LeadsRoute.PageNonEmptyIff | backend/src/routes/leads.js:52-76 | a page is non-empty exactly when its number is at most `pages` |
| LeadsRoute.GetLeads | backend/src/routes/leads.js:7-78 | the response data is the requested page of the selected leads sorted as requested; at most limit leads, each stored and selected, in sort order; total counts all selected leads and pages = ceil(total/limit) |
| LeadsRoute.FindById | backend/src/routes/leads.js:91 | a found lead is stored and has that id, and none is found exactly when no stored lead has it |
| LeadsRoute.GetLeadById | backend/src/routes/leads.js:89-103 | the lead returned is stored and has the id; "Lead not found" is returned exactly when no lead has it |
| LeadsRoute.FoundIsTheLead | backend/src/routes/leads.js:89-103 | with unique ids, looking up a stored lead's id returns that lead |
| AnalyticsRoute.BuildSummaryQuery | backend/src/routes/analytics.js:9-19 | the filter document matches a lead exactly when it falls on the requested day of the current month (any lead with no day) |
| AnalyticsRoute.SameDayFilterAsList | backend/src/routes/analytics.js:12-22 | the summary selects the same leads as the list route with the same day and no other filter |
| AnalyticsRoute.OccurrencesPositive | backend/src/routes/analytics.js:33 | a key has a count of at least 1 exactly when it occurs |
| AnalyticsRoute.FirstSeen | backend/src/routes/analytics.js:31-32 | the group keys are distinct and are exactly the keys that occur |
| AnalyticsRoute.CountEach | backend/src/routes/analytics.js:33 | each group's count is the number of occurrences of its key |
| AnalyticsRoute.CountEachPush | backend/src/routes/analytics.js:33 | one more document adds one to the total exactly when its key is a group key |
| AnalyticsRoute.CountEachTotal | backend/src/routes/analytics.js:22-33 | when every key is a group key, the counts add up to the number of documents |
| AnalyticsRoute.Group | backend/src/routes/analytics.js:31-34 | `$group`: one bucket per distinct key that occurs, each with count ≥ 1 equal to its occurrences, summing to the number of documents |
| AnalyticsRoute.InsertBucket | backend/src/routes/analytics.js:37 | inserting a bucket with a new key keeps the keys strictly ascending and adds exactly that bucket |
| AnalyticsRoute.SortBuckets | backend/src/routes/analytics.js:36-38 | `$sort: { _id: 1 }`: the same buckets, keys strictly ascending, same total |
| AnalyticsRoute.GroupSorted | backend/src/routes/analytics.js:28-39 | the pipeline result: keys strictly ascending, exactly the keys that occur, counts ≥ 1 equal to occurrences, summing to the number of documents |
| AnalyticsRoute.ConversionRate | backend/src/routes/analytics.js:56-66 | 0 when there are no leads; otherwise the rate in hundredths of a percent nearest to converted/total·100, and at most 100% when converted ≤ total |
| AnalyticsRoute.RateNearest | backend/src/routes/analytics.js:57 | the rounding formula is within half a hundredth of the exact rate and stays at most 10000 |
| AnalyticsRoute.OneOfThree | backend/src/routes/analytics.js:57 | 1 converted of 3 gives 33.33% |
| AnalyticsRoute.StageLabels | backend/src/routes/analytics.js:32 | label i is the stage of lead i, so there is one `$stage` value per lead and exactly the stages present |
| AnalyticsRoute.StatusLabels | backend/src/routes/analytics.js:46 | label i is the status of lead i, so there is one `$status` value per lead and exactly the statuses present |
| AnalyticsRoute.StageGroups | backend/src/routes/analytics.js:28-70 | leadsByStage: one entry per stage present, keys strictly ascending, counts ≥ 1, summing to the number of leads |
| AnalyticsRoute.StatusGroups | backend/src/routes/analytics.js:42-74 | leadsByStatus: one entry per status present, keys strictly ascending, counts ≥ 1, summing to the number of leads |
| AnalyticsRoute.ConvertedCount | backend/src/routes/analytics.js:25 | the number of positions holding a lead in stage Converted; at most the number of leads, and 0 exactly when no lead is Converted |
| AnalyticsRoute.ConvertedPositions | backend/src/routes/analytics.js:25 | the converted leads the filter keeps are as many as the positions holding one |
| AnalyticsRoute.Summarize | backend/src/routes/analytics.js:21-75 | totalLeads is the number of matches, convertedLeads is the number of converted matches (so ≤ totalLeads), the rate is the conversion rate of the two, at most 100% and 0 for no leads, and leadsByStage and leadsByStatus are the stage and status groups of the matches, each summing to totalLeads |
| AnalyticsRoute.GetSummary | backend/src/routes/analytics.js:7-76 | the summary of exactly the leads on the requested day |
| AnalyticsRoute.SummaryExample | backend/src/routes/analytics.js:21-75 | leads New/Active, New/Active, Converted/Pending give 3 leads, 1 converted, 33.33%, stages [Converted: 1, New: 2], statuses [Active: 2, Pending: 1] |
| AnalyticsRoute.TwoThenOne | backend/src/routes/analytics.js:31-34 | grouping [x, x, y] gives x with 2, then y with 1 |
| AnalyticsRoute.SortTwo | backend/src/routes/analytics.js:36-38 | sorting two buckets puts the smaller key first |
| Seed.SeedValuesAreSchemaValues | backend/scripts/seed.js:7-8 | the seed's stage and status arrays are the schema's enum values |
| Seed.Roll | backend/scripts/seed.js:19-21 | `Math.floor(Math.random() * n)` lies in 0 .. n-1 |
| Seed.SeedDate | backend/scripts/seed.js:15-23 | the created date is on day (i % 13) + 1, in 1..13, of the clock's year and month, at a valid hour, minute and second |
| Seed.GenerateLeads | backend/scripts/seed.js:10-40 | exactly count documents, the i-th built from the i-th draw, created on day (i % 13) + 1 of its clock's month, with an enum stage and status and a lower-case email |
| Seed.SeededIsAccepted | backend/scripts/seed.js:26-35 | a seeded document with a non-blank name and email passes the schema and keeps its stage, status, email, notes ("" when no paragraph) and date |
| Seed.CyclicDays | backend/scripts/seed.js:18 | day d gets ⌊n/13⌋ leads, plus one when d-1 < n % 13 |
| Seed.NextInCycle | backend/scripts/seed.js:18 | stepping i to i+1 advances the cycle position or completes a cycle |
| Seed.SevenHundredFifty | backend/scripts/seed.js:18-51 | of 750 leads, days 1..9 get 58 each and days 10..13 get 57 each |
| Dashboard.FirstChar | frontend/src/components/Dashboard.jsx:67 | `n[0]` joined as a string: the first character of a non-empty piece, and nothing for an empty piece |
| Dashboard.HeadsOfSplit | frontend/src/components/Dashboard.jsx:67 | the first characters of the `split(' ')` pieces are exactly the characters that begin a word |
| Dashboard.GetInitials | frontend/src/components/Dashboard.jsx:65-69 | "??" for an absent or empty name; otherwise the first two of the upper-cased characters that begin a word, never more than two |
| Dashboard.WordStartsAppend | frontend/src/components/Dashboard.jsx:67 | the word starts of a + b are those of a followed by those of b, scanned from where a left off |
| Dashboard.RepeatedSpaceIgnored | frontend/src/components/Dashboard.jsx:67 | a doubled space does not change the initials |
| Dashboard.LeadingSpaceIgnored | frontend/src/components/Dashboard.jsx:67 | a leading space does not change the initials |
| Dashboard.OneWord | frontend/src/components/Dashboard.jsx:67 | a word contributes only its first character |
| Dashboard.WordThen | frontend/src/components/Dashboard.jsx:67 | a word, a space and the rest: the word's first character, then the rest's word starts |
| Dashboard.InitialsOfAbsentName | frontend/src/components/Dashboard.jsx:66-68 | an absent or empty name gives "??" |
| Dashboard.InitialsOfTwoWords | frontend/src/components/Dashboard.jsx:66-67 | two words give their two upper-cased first characters |
| Dashboard.InitialsOfThreeWords | frontend/src/components/Dashboard.jsx:67 | three words give only the first two initials |
| Dashboard.InitialsOfBlankName | frontend/src/components/Dashboard.jsx:66-67 | a name of one space is present but gives "" |
| Dashboard.ToggleOrder | frontend/src/components/Dashboard.jsx:134 | the toggle gives "asc" exactly for "desc", and otherwise "desc" |
| Dashboard.ToggleTwice | frontend/src/components/Dashboard.jsx:134 | toggling twice restores the order exactly when it was "asc" or "desc" |
| Dashboard.AsWrittenStaysInRange | frontend/src/components/Dashboard.jsx:156-167 | with at least one page and the page in range, the button guards as written keep the page in 1 .. totalPages |
| Dashboard.AsWrittenRunsPastEnd | frontend/src/components/Dashboard.jsx:162-167 | with 0 pages and page 1, every click on next as written moves one page further past the end |
| Dashboard.RunsPastEnd | frontend/src/components/Dashboard.jsx:162-167 | with 0 pages, n clicks on next as written add n to any page |
| Dashboard.StaysInRange | frontend/src/components/Dashboard.jsx:156-167 | with the corrected next guard, any clicks keep the page in 1 .. max(1, totalPages), for every page count |
| Dashboard.GuardsAgreeInRange | frontend/src/components/Dashboard.jsx:162-163 | in range the corrected and the as-written next guards agree |
| Dashboard.Optional | frontend/src/components/Dashboard.jsx:34-36 | nothing is sent for an empty value, and exactly the pair (key, value) for a non-empty one |
| Dashboard.BuildParams | frontend/src/components/Dashboard.jsx:29-37 | the parameters start with page, limit 10, sortBy and sortOrder; search, stage and day are sent exactly when non-empty; nothing else follows: the length is 4 plus one per non-empty optional value, and every later pair is a search, stage or day pair |
| Dashboard.FiltersLookup | frontend/src/components/Dashboard.jsx:34-36 | a lookup in the optional pairs finds the set value of its key and nothing else |
| Dashboard.ReadParams | frontend/src/components/Dashboard.jsx:29-37 | the list route reads back the dashboard's search, stage, day, sort, page and limit 10, and an empty status |
| Dashboard.ParamsRoundTrip | frontend/src/components/Dashboard.jsx:29-39 | the list route parses the sent parameters into the dashboard's page, limit 10, sort, search, stage, no status, and the selected day's number |
| Dashboard.DashboardState.constructor | frontend/src/components/Dashboard.jsx:12-20 | the initial state: page 1 of 1, no search or stage, newest first, day "07" |
| Dashboard.DashboardState.ClickPrev | frontend/src/components/Dashboard.jsx:156-161 | one page back unless on page 1; the page stays ≥ 1; nothing else changes |
| Dashboard.DashboardState.ClickNext | frontend/src/components/Dashboard.jsx:162-167 | one page on unless on the last page or past it (the corrected guard); nothing else changes |
| Dashboard.DashboardState.SetSearchTerm | frontend/src/components/Dashboard.jsx:59-106 | a changed search term resets the page to 1; nothing else changes |
| Dashboard.DashboardState.SetStageFilter | frontend/src/components/Dashboard.jsx:59-115 | a changed stage filter resets the page to 1; nothing else changes |
| Dashboard.DashboardState.SetSortBy | frontend/src/components/Dashboard.jsx:126 | the sort field changes and the page is kept |
| Dashboard.DashboardState.ToggleSortOrder | frontend/src/components/Dashboard.jsx:134 | the order is toggled and the page is kept |
| Dashboard.DashboardState.SetSelectedDate | frontend/src/components/Dashboard.jsx:145 | the day changes and the page is kept |
| Dashboard.DashboardState.ReceivePages | frontend/src/components/Dashboard.jsx:40-43 | a successful fetch stores the page count |
| Dashboard.DashboardState.RequestParams | frontend/src/components/Dashboard.jsx:29-37 | the parameters of the next fetch are those built from the current state |
| Dashboard.InitialRequest | frontend/src/components/Dashboard.jsx:14-37 | the first fetch asks the list route for page 1 of 10, newest first, on day 7 |

## Left out

- Database calls (`find`, `sort`, `skip`, `limit`, `countDocuments`, `aggregate`, `insertMany`, `deleteMany`) are functions over an in-memory sequence; the text and compound indexes (backend/src/models/Lead.js:45-47) affect only speed.
- LeadsRoute.Matches: `$regex` with option `i` is a literal case-insensitive substring test; regular-expression metacharacters are not modelled.
- Calendar: JavaScript `Date` is a calendar tuple at second resolution; milliseconds, the local time zone and the rollover of an out-of-range day into the next month are left out. The current date is a parameter. The day window ends at 23:59:59.000, so a lead created in the last second of the day after that instant (23:59:59.5, say) falls outside the window in the routes but inside `InDayWindow` and `DayWindowIsDay` here.
- LeadsRoute.GetLeads and AnalyticsRoute.GetSummary: `page ≥ 1`, `limit ≥ 1` (list route) and a day in 1..31 (both routes) are preconditions; a day of 0 or above the month's length is not modelled; `parseInt` yielding NaN and `limit = 0` (an infinite page count) are not modelled.
- Text.ParseInt: strings with a `0x`/`0X` prefix, which `parseInt` reads in base 16, are read as 0 here.
- AnalyticsRoute.ConversionRate: the rate is an integer number of hundredths of a percent rounded half up; the binary floating-point value of `toFixed(2)` and `parseFloat`, and its half-way cases, are not modelled.
- Text.Lower and Text.Upper map only the ASCII letters; Unicode case mapping is left out, and characters are not UTF-16 code units.
- LeadsRoute.SortLeads: the model breaks ties between leads with equal sort keys (equal names, or an unknown sortBy where every key is missing) in store order, and GetLeads and PagesPartition depend on that one order holding on every request; the database guarantees no order for equal keys, so its successive pages can overlap or skip such leads, which the model does not capture.
- LeadsRoute.Lookup: every query value is a single string; a repeated key, which the query parser turns into an array, and a bracketed key, which it turns into an object, are not modelled, and neither is passing such a value into the filter.
- LeadsRoute.GetLeadById: ids are natural numbers, so the CastError of a malformed id and the 500 response are left out; so are the 500 responses of the other handlers.
- The `success` flag and the JSON envelope of the responses are left out; the responses are datatypes.
- AnalyticsRoute.StageGroups: the entries are `Bucket(key, count)` for both groupings rather than `{ stage, count }` and `{ status, count }`.
- Authentication (`auth` middleware and backend/src/routes/auth.js) is left out; the middleware is not part of this model.
- Seed: faker and `Math.random` values are inputs (`Draw`), and the clock reading of each iteration is the draw's `now`; `seedDatabase` (connection, clearing, insertion, the statistics printout, process exit) is I/O and is left out.
- Dashboard: the 300 ms debounce, the asynchronous fetch and stale responses, and the rendering are left out; the lead list received on a fetch is not modelled, only its page count.
- Dashboard.DashboardState.ClickNext: uses the corrected next guard (see Findings); the as-written guard is `Dashboard.NextEnabledAsWritten`.
- The other UI components (Sidebar, Login, App, LeadDetails, Analytics, RightPanel) are not part of this model.

## Findings

| source | as written | input that shows it | evidently intended | confidence | as-written member | corrected member |
|---|---|---|---|---|---|---|
| frontend/src/components/Dashboard.jsx:162-167 | the next button is disabled only when `page === totalPages` | no lead matches, so the list route reports `pages = 0` and page stays 1; `1 !== 0` keeps next enabled and each click moves to page 2, 3, … (also when a new selected day, which does not reset page, leaves page above totalPages) | next is disabled on the last page and beyond it (`page >= totalPages`), so the page stays in 1 .. max(1, totalPages) | not executed | Dashboard.AsWrittenRunsPastEnd | Dashboard.StaysInRange |
