# Employee and timesheet management: verified model of the request logic

This project is a Dafny model of the decision logic in a small employee and timesheet
management web application. It covers five parts:

- **Employee listing loader** (`EmployeeListing`). It reads the `search`, `sortBy`,
  `order`, `page` and `pageSize` query parameters. The sort column and direction are
  reduced to allow-lists. The page count is computed and the requested page is clamped
  to it. The loader then assembles the count query, the data query and their bound
  parameters. The module also holds the `toggleOrder` rule of the column headers.
- **Employee form validation** (`EmployeeForm`). This is the `handleSubmit` of the
  employee form. It applies five per-field rules: the trimmed name length, the e-mail
  pattern, the phone pattern, the minimum salary, and a minimum age computed on the
  calendar. It builds a fresh error map, and it blocks submission exactly when that
  map has an entry.
- **Timesheet listing loader** (`TimesheetListing`). The optional search and employee
  filters become WHERE conditions and parameters. The module also models `toDateOnly`
  and the mapping of joined rows to calendar events.
- **Timesheet form** (`TimesheetForm`). This is the check that the end time comes after
  the start time. It also models the hidden `id` field of the edit form.
- **Timesheet save action** (`TimesheetUpsert`). It checks the required fields. A posted
  `id` selects an UPDATE of that row; without one, the action inserts a row. A
  successful write redirects to the listing.

Two helper modules support these. `Options` holds an optional value. `Text` holds the
ECMAScript white space behind `trim` and the regular-expression class `\s`/`\S`, ASCII
case mapping, `join`, and decimal text.

The loaders do not reach a database. The employee loader is given the row count that
its count query returns. Each loader returns the SQL text and the parameter list it
would run, in place of the rows. The timesheets table that the save action writes is a
class holding a map from row id to row, plus the next id to hand out.

The employee loader keeps one behaviour of the source as written. The offset is
computed from the page as requested, before that page is clamped to the page count.
The model does this too, and two lemmas state the consequences:

- `ClampedRequestSkipsAllRows` shows that a page past the last one skips every
  matching row.
- `InRangePageStartsInsideRows` shows that in-range pages start inside the rows.

## Model

| member | source | states |
|---|---|---|
| Text.Trim | app/Components/EmployeeForm.tsx:29-31 | `trim` returns a string no longer than its input that neither starts nor ends with ECMAScript white space |
| Text.TrimStartSpec | app/Components/EmployeeForm.tsx:29 | the leading part `trim` drops is all white space, and what remains is a suffix of the input that does not start with white space |
| Text.TrimEndSpec | app/Components/EmployeeForm.tsx:29 | the trailing part `trim` drops is all white space, and what remains is a prefix that does not end with white space |
| Text.TrimKeepsMiddle | app/routes/employees._index/route.tsx:13 | the trimmed value is the input's middle slice, and everything cut on both sides is white space |
| Text.LeadingWhitespace | app/routes/employees._index/route.tsx:13 | the count of leading white-space characters covers a run of white space that ends at the length or at a character that is not white space |
| Text.TrimIdempotent | app/routes/timesheets._index/route.tsx:13-14 | trimming a trimmed value changes nothing |
| Text.TrimEmptyIffAllWhitespace | app/routes/timesheets._index/route.tsx:13-14 | a value trims to "" exactly when it is all white space, so a blank filter counts as absent |
| Text.ToLower | app/routes/employees._index/route.tsx:22 | `toLowerCase` keeps the length and lowers each ASCII capital in place |
| Text.ToUpper | app/routes/employees._index/route.tsx:41 | `toUpperCase` keeps the length and raises each ASCII small letter in place |
| Text.UpperDeterminedByLower | app/routes/employees._index/route.tsx:41 | two strings with equal lower-case forms have equal upper-case forms |
| Text.UpperCharDeterminedByLower | app/routes/employees._index/route.tsx:41 | two characters with equal lower-case forms have equal upper-case forms |
| Text.Utf16Length | app/Components/EmployeeForm.tsx:36 | `length` counts UTF-16 code units: at least one and at most two per character |
| Text.Utf16LengthOfBasicPlane | app/Components/EmployeeForm.tsx:36 | for characters of the Basic Multilingual Plane, `length` is the number of characters |
| Text.Utf16LengthOfConcat | app/Components/EmployeeForm.tsx:36 | `length` adds up over a concatenation |
| Text.OccurrencesAbsent | app/routes/employees._index/route.tsx:28 | a text without a `?` has no placeholder |
| Text.OccurrencesOfConcat | app/routes/employees._index/route.tsx:28 | placeholders add up over a concatenation |
| Text.OccurrencesOfJoin | app/routes/timesheets._index/route.tsx:35 | joining conditions that hold one `?` each, with a separator free of `?`, gives one `?` per condition |
| Text.DigitChar | app/routes/timesheets._index/route.tsx:67 | a digit value below 10 maps to the decimal digit character of that value |
| Text.DecimalText | app/routes/timesheets._index/route.tsx:67 | `String(n)` of a natural number is non-empty, all digits, and has no leading zero |
| Text.DecimalRoundTrip | app/routes/timesheets._index/route.tsx:67 | reading the decimal text of `n` back gives `n` |
| EmployeeListing.SortColumn | app/routes/employees._index/route.tsx:14-21 | the kept sort column is the parameter exactly when it is one of the four allow-listed columns, and "" otherwise |
| EmployeeListing.SortOrder | app/routes/employees._index/route.tsx:15-22 | the direction is kept as given when its lower-case form is "asc" or "desc"; an absent, empty or other value becomes "asc" |
| EmployeeListing.DirectionIsAscOrDesc | app/routes/employees._index/route.tsx:41 | a kept direction upper-cases to exactly ASC or DESC, and to DESC exactly when its lower case is "desc" |
| EmployeeListing.TotalPages | app/routes/employees._index/route.tsx:37 | the page count is at least 1 and is the fewest pages of `pageSize` rows that hold every row |
| EmployeeListing.KeptSort | app/routes/employees._index/route.tsx:14-22 | the reassigned sortBy and order are the allow-listed column and the kept direction |
| EmployeeListing.Filter | app/routes/employees._index/route.tsx:24-30 | the FROM clause gains the name/e-mail LIKE filter, and its two parameters, exactly when the search is non-empty |
| EmployeeListing.SortedQuery | app/routes/employees._index/route.tsx:40-42 | the data query adds ORDER BY, the column and the direction for any non-empty column (the loader passes only allow-listed ones), and always ends in the LIMIT/OFFSET placeholders |
| EmployeeListing.Loader | app/routes/employees._index/route.tsx:9-57 | states every returned field and both queries. Only allow-listed columns and ASC/DESC reach the SQL text. The page is clamped to the page count. The parameters are the search terms, then pageSize and the offset of the requested page. Each query has exactly as many `?` placeholders as it binds parameters |
| EmployeeListing.CountQueryPlaceholders | app/routes/employees._index/route.tsx:24-35 | the count query has two `?` with a search and none without, matching its two search parameters |
| EmployeeListing.DataQueryPlaceholders | app/routes/employees._index/route.tsx:24-43 | for an allow-listed or absent column and ASC/DESC, the data query has the search's `?`s plus two for LIMIT and OFFSET |
| EmployeeListing.FromClausePlaceholders | app/routes/employees._index/route.tsx:24-30 | the FROM clause has two `?` with a search and none without |
| EmployeeListing.LimitClausePlaceholders | app/routes/employees._index/route.tsx:42 | the LIMIT/OFFSET tail has exactly two `?` |
| EmployeeListing.NoPlaceholderInSortField | app/routes/employees._index/route.tsx:6 | no allow-listed column name holds a `?` |
| EmployeeListing.ClampedRequestSkipsAllRows | app/routes/employees._index/route.tsx:19-43 | for a page past the last, the offset (taken before the clamp) is at least the row count and beyond the last page's offset |
| EmployeeListing.InRangePageStartsInsideRows | app/routes/employees._index/route.tsx:19-38 | a page from 1 to the page count has an offset inside the rows, unless the table is empty |
| EmployeeListing.ToggleOrder | app/routes/employees._index/route.tsx:80-83 | the requested direction is "asc" or "desc", and it is "desc" exactly for the current column sorted "asc" |
| EmployeeListing.ToggleTwice | app/routes/employees._index/route.tsx:80-83 | toggling the current column twice returns to the lower-case direction one started from |
| EmployeeListing.UpperCaseAscendingIsNotFlipped | app/routes/employees._index/route.tsx:80-83 | an order the loader keeps as "ASC" makes the current column's header ask for "asc" again, not "desc" |
| EmployeeForm.IndexFrom | app/Components/EmployeeForm.tsx:41 | the first position at or after a start that holds a character, or the length |
| EmployeeForm.LastIndexBefore | app/Components/EmployeeForm.tsx:41 | the last position before an end that holds a character, or -1 |
| EmployeeForm.MatchesEmailIffShape | app/Components/EmployeeForm.tsx:41-43 | the e-mail check accepts exactly the white-space-free strings with an '@' and a later '.' that cut them into three non-empty parts |
| EmployeeForm.MatchesPhoneByCharacters | app/Components/EmployeeForm.tsx:45-47 | the phone check accepts exactly 8 to 15 decimal digits, with an optional single '+' in first place |
| EmployeeForm.Age | app/Components/EmployeeForm.tsx:55-60 | the age is the number of birthdays reached: that anniversary is on or before today and the next is after |
| EmployeeForm.AgeIsUnique | app/Components/EmployeeForm.tsx:55-60 | no other year count sits between two consecutive anniversaries around today |
| EmployeeForm.BirthdayBoundary | app/Components/EmployeeForm.tsx:56-60 | born exactly `n` years ago today gives age `n`; born on the next day number of the same month gives `n - 1` (at a month's end that day number is not a calendar date, and `AgeIsUnique` covers every date) |
| EmployeeForm.KeyInjective | app/Components/EmployeeForm.tsx:27-62 | the five fields have five different names in the error record, so a field-keyed map and the name-keyed record hold the same entries |
| EmployeeForm.Flagged | app/Components/EmployeeForm.tsx:36-63 | a field is flagged exactly when its rule outcome is true |
| EmployeeForm.TwoAstralCharactersAreLongEnough | app/Components/EmployeeForm.tsx:36 | a name of two characters outside the Basic Multilingual Plane has UTF-16 `length` exactly 4 and passes the name rule, though it has fewer than 3 characters |
| EmployeeForm.ExpectedErrorsByField | app/Components/EmployeeForm.tsx:29-63 | gives each rule's entry condition and message: trimmed name under 3 UTF-16 code units, e-mail outside the pattern, phone outside the pattern, salary NaN or under 500, and a parsed date of birth with an age under 18 |
| EmployeeForm.ErrorsNonEmptyIffSomeRuleBroken | app/Components/EmployeeForm.tsx:66 | the error map has an entry exactly when some rule is broken |
| EmployeeForm.ErrorMapUnique | app/Components/EmployeeForm.tsx:27 | a map with exactly the given fields, each holding its message, is the error map of those fields |
| EmployeeForm.ExpectedErrorsUnique | app/Components/EmployeeForm.tsx:27-63 | a map that holds each broken rule's message and nothing else is the expected error map |
| EmployeeForm.CollectErrors | app/Components/EmployeeForm.tsx:25-64 | filling a fresh map field by field gives exactly the expected errors |
| EmployeeForm.FormState.constructor | app/Components/EmployeeForm.tsx:23 | the error state starts empty |
| EmployeeForm.FormState.HandleSubmit | app/Components/EmployeeForm.tsx:25-70 | submission is prevented exactly when some rule is broken, and only then is the error state replaced, by this attempt's errors alone |
| TimesheetListing.Loader | app/routes/timesheets._index/route.tsx:9-42 | each non-blank trimmed filter adds one condition and one parameter, search before employee. There are as many parameters as conditions and as `?` placeholders in the query, and WHERE appears only with conditions joined by AND |
| TimesheetListing.WithConditionsPlaceholders | app/routes/timesheets._index/route.tsx:16-36 | a query built from search and employee conditions has one `?` per condition and no other |
| TimesheetListing.ConditionPlaceholders | app/routes/timesheets._index/route.tsx:25-30 | each of the two conditions holds exactly one `?` |
| TimesheetListing.BaseQueryPlaceholders | app/routes/timesheets._index/route.tsx:16-20 | the base join holds no `?` |
| TimesheetListing.BothFiltersQuery | app/routes/timesheets._index/route.tsx:34-36 | with both filters, the query ends in the LIKE condition, AND, and the id condition |
| TimesheetListing.WhereIffConditions | app/routes/timesheets._index/route.tsx:16-36 | the query always starts with the base join, and is longer than it exactly when there is a condition |
| TimesheetListing.ToDateOnly | app/routes/timesheets._index/route.tsx:44-47 | the result is the prefix of length min(10, length), so "" for "" |
| TimesheetListing.DatePartOfDateTime | app/routes/timesheets._index/route.tsx:44-47 | a ten-character date followed by anything gives back the date |
| TimesheetListing.ToDateOnlyIdempotent | app/routes/timesheets._index/route.tsx:44-47 | cutting a cut value changes nothing |
| TimesheetListing.EventOfReadsBack | app/routes/timesheets._index/route.tsx:66-71 | the event id reads back to the row id. The title is the name alone without notes. Otherwise it is the name, then the separator " - " at the positions right after the name, then the notes. Start and end are the dates of the row's times |
| TimesheetListing.Events | app/routes/timesheets._index/route.tsx:66-71 | one event per row, in the rows' order |
| TimesheetListing.EventsOfConcatenation | app/routes/timesheets._index/route.tsx:66 | mapping two runs of rows gives the two runs of events |
| TimesheetListing.EventIdsReadBack | app/routes/timesheets._index/route.tsx:67 | every event id is decimal text that reads back to its row's id |
| TimesheetListing.DistinctRowsDistinctEvents | app/routes/timesheets._index/route.tsx:67 | rows with different ids give events with different ids |
| TimesheetForm.EqualTimesRejected | app/Components/TimesSheetForm.tsx:31 | an end equal to the start is rejected |
| TimesheetForm.ExactlyOneOrderAccepted | app/Components/TimesSheetForm.tsx:31 | of two different valid times, exactly one order is accepted: the one with the later end |
| TimesheetForm.Form.constructor | app/Components/TimesSheetForm.tsx:22 | the error starts empty and nothing has been submitted |
| TimesheetForm.Form.HandleSubmit | app/Components/TimesSheetForm.tsx:24-38 | default submission is always prevented. An end not after the start sets the message and submits nothing; otherwise the error is cleared and the form is submitted once |
| TimesheetForm.HiddenIdField | app/Components/TimesSheetForm.tsx:52-54 | the hidden id input exists exactly for an id that is present and not 0, and its value is the id's decimal text |
| TimesheetUpsert.RowKey | app/routes/timesheets.new/route.tsx:26-33 | posted id text names a row exactly when it is a non-empty string of decimal digits |
| TimesheetUpsert.HiddenIdSelectsItsRow | app/routes/timesheets.new/route.tsx:26-33 | the id the edit form posts back is truthy and names the row it came from |
| TimesheetUpsert.Updated | app/routes/timesheets.new/route.tsx:27-34 | an UPDATE keeps the row ids, replaces only the matching row, and changes nothing when no row matches |
| TimesheetUpsert.UpdateKeepsCount | app/routes/timesheets.new/route.tsx:26-34 | an update keeps the number of rows |
| TimesheetUpsert.InsertAddsOne | app/routes/timesheets.new/route.tsx:35-43 | the insert step of the action: a row under an unused id adds exactly one row and keeps all others |
| TimesheetUpsert.Table.constructor | app/routes/timesheets.new/route.tsx:36-42 | the table starts empty, with ids to be handed out from 1, and satisfies the table invariant |
| TimesheetUpsert.Table.Action | app/routes/timesheets.new/route.tsx:12-46 | states all outcomes. Without the three required fields the action fails and the table is unchanged. A truthy id updates only its row and keeps the count. No id inserts one row under the next id. Every write redirects to /timesheets. The table invariant is kept: ids run from 1 below the next id, and the last id handed out names a row |

## Left out

- Database access is not modelled: opening the database, running queries, SQLite's LIKE and COUNT. The employee loader takes the count as an input, and both loaders return query text and parameters, not rows.
- JavaScript parsing is not modelled: `parseInt` of page and pageSize, `parseFloat` of the salary, and `new Date(...)` of dates and times. These arrive already parsed: page and pageSize as integers, the salary as an optional real (None for NaN), dates as (year, month, day), and times as optional minutes (None for an Invalid Date).
- EmployeeListing.Loader: requires pageSize > 0. A zero, negative or NaN pageSize and a NaN page follow JavaScript number semantics (division by zero, NaN comparisons), which are not modelled.
- EmployeeForm.Age: does not model the time-zone shift that `new Date("YYYY-MM-DD")` (parsed as UTC) can cause when its month and day are read in local time.
- Text.ToLower: does not model non-ASCII letters, whose case mapping is Unicode's.
- Text.ToUpper: does not model non-ASCII letters either, nor the characters (such as "ß") whose upper-case form is longer.
- The header click handlers copy the form data into a value they then drop; only the `toggleOrder` rule is modelled. Pagination links and all rendering are left out too.
- The error map is keyed by a five-value field type, not by the field-name strings; `Field.Key` gives those names, and `EmployeeForm.KeyInjective` shows that no two fields share one, so the two maps hold the same entries.
- TimesheetForm.HiddenIdField: does not model React rendering the number 0 as text when the id is 0; only the absence of the input is modelled.
- TimesheetListing.ToDateOnly: `slice` counts UTF-16 code units, while the model counts characters. The two agree on the ASCII date-time text that `toDateOnly` is given.
- TimesheetListing.EventOfReadsBack: does not model NULL start or end times. The times are strings, and `toDateOnly` maps "" to "".
- TimesheetUpsert.RowKey: does not model SQLite's numeric conversion of other id texts (for example "5.0" or " 5"). Only decimal digit strings name a row.
- TimesheetUpsert.Table.Action: ids come from a counter, whereas SQLite hands out one more than the largest id. The table invariant `Valid` proves that they agree: every id is below the counter, and the counter is one past an id in the table (or 1 for an empty table), so it is one more than the largest id.
- The calendar component, the root redirect, the employee creation route, the detail and edit pages, and the seed script are not part of this model.
