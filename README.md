# Contact-request workflow, modelled in Dafny

This project models the contact and quote-request workflow of a
manufacturing company's marketing site:

- **Intake form** (`src/components/MainFeature.jsx`). A two-step form keeps
  a form record, an error map, a step counter and two flags.
  - Step 1 asks for name, email, company and an optional phone number.
  - Step 2 asks for the request type, products, message and deadline.
  - Each step's rules must pass before the form moves on or submits.
  - A successful submission is followed by a delayed reset.
- **Record-store service** (`src/services/ContactService.js`). It maps the
  form to a table record, merges default fetch parameters with the
  caller's, builds the update and delete payloads, and reads the store's
  responses: a missing or unsuccessful response is an error.
- **Triage list** (`src/pages/ContactRequests.jsx`). Staff see requests a
  page of ten at a time, filtered by status.
  - The page count is a ceiling division.
  - A status change or a deletion reaches the list only after the store
    confirms it.
  - Choosing a filter in the status select restarts paging at page 1.
  - The "Show All Requests" button on an empty filtered list clears the
    filter but keeps the current page.
  - The Previous and Next buttons keep the page in range.
- **Dashboard** (`src/pages/Dashboard.jsx`). It shows a count per status and
  the five most recent requests, newest first.

The store client is outside the model. Each of its calls becomes a
parameter of type `Reply<T>`: the call either threw, or returned a response
that may be absent. Every handler is proved for every reply. Regular
expressions become character predicates. `trim()` and the regex class `\s`
become the ECMAScript whitespace set. `CreatedOn` is an integer timestamp.

Files: `wrappers.dfy` (Option and Result), `text.dfy` (trim, join and
split, ASCII upper-casing), `form_rules.dfy` (the form record and the rules
of each step), `contact_service.dfy`, `intake_form.dfy`, `triage.dfy`,
`dashboard.dfy`. The three page components are classes whose fields are
the component state. Their handlers are methods with `modifies` clauses.
The pure parts are functions with lemmas.

Where the two sources of intent disagree, the model follows the code:

- Checking a product appends its id without removing an earlier copy.
  The model proves that no id is ever held twice only under the rendering
  discipline: a checkbox is shown checked exactly when its id is selected
  (`src/components/MainFeature.jsx:435-436`).
- A list fetch that throws empties the list but keeps the page count.
  The page count is reset to 1 only when the response carries no data.
- The status select restarts paging at page 1, but the "Show All Requests"
  button (`src/pages/ContactRequests.jsx:274-281`) sets the filter to "all"
  and leaves the page as it was. From page 3 of an empty filtered list, the
  unfiltered list is fetched from page 3, not page 1.

## Model

| member | source | states |
|---|---|---|
| Text.Trim | src/components/MainFeature.jsx:104-131 | `trim()` is empty exactly when every character is whitespace; a non-empty result has no whitespace at either end and is never longer than the input |
| Text.TrimIsMiddle | src/components/MainFeature.jsx:104-131 | `trim()` returns the middle of the text: what it cuts from the front is the leading whitespace, and what it cuts from the back is whitespace too |
| Text.TrimNoOuterSpace | src/components/MainFeature.jsx:129-131 | text with no whitespace at either end is its own trimmed text |
| Text.TrimIdempotent | src/components/MainFeature.jsx:129-131 | trimming twice gives the same text as trimming once |
| Text.Join | src/services/ContactService.js:27 | joining no items gives "", joining one item gives that item |
| Text.SplitJoin | src/services/ContactService.js:27 | splitting a join on ',' gives back any non-empty list of comma-free items |
| Text.EmptyJoinSplitsToOneEmptyItem | src/services/ContactService.js:27 | the empty list is the one list the round trip cannot recover: it comes back as `[""]` |
| Text.UpperAscii | src/pages/ContactRequests.jsx:123 | `toUpperCase` maps an ASCII lower-case letter to its capital and leaves other characters alone |
| FormRules.WithText | src/components/MainFeature.jsx:59-62 | `{ ...formData, [name]: value }` sets the named text field and leaves every other field as it was |
| FormRules.EmailShapeMatchesPattern | src/components/MainFeature.jsx:110 | the computed email check accepts exactly the strings that split as `[^\s@]+ "@" [^\s@]+ "." [^\s@]+` |
| FormRules.EmailSplitChars | src/components/MainFeature.jsx:110 | in a matching email, every character other than the '@' is neither whitespace nor '@' |
| FormRules.EmailPatternShape | src/components/MainFeature.jsx:110 | a matching email has no whitespace anywhere and exactly one '@', which is not at the start |
| FormRules.RuleMessage | src/components/MainFeature.jsx:104-133 | each field's rule yields "" or one of that field's own messages: name, company and products have one message each; email has "required" and "invalid"; the message field has "required" and "too short"; an empty phone and the deadline always pass |
| FormRules.StepErrors | src/components/MainFeature.jsx:99-138 | the error map has a key exactly for each field of the current step whose rule fails, and its value is that rule's non-empty message; fields of the other step never appear |
| FormRules.Step1Rules | src/components/MainFeature.jsx:103-121 | name and company are flagged exactly when blank; a blank email is "required", a non-blank one is "invalid" exactly when it fails the pattern; the phone is flagged exactly when it is non-empty and not 10-15 characters of `0-9 + - ( )` or space |
| FormRules.Step1ValidIff | src/components/MainFeature.jsx:103-137 | step 1 passes exactly when name and company are not blank, the email matches the pattern and the phone is empty or phone-shaped |
| FormRules.OuterSpaceEmailInvalid | src/components/MainFeature.jsx:108-112 | a non-blank email with whitespace at either end gets "Invalid email format" |
| FormRules.Step2Rules | src/components/MainFeature.jsx:124-134 | an empty product list is flagged; a blank message is "required"; a non-blank message whose trimmed length is under 10 is "too short" |
| FormRules.EditKeepsOtherRules | src/components/MainFeature.jsx:57-62 | editing one text field leaves the rule outcome of every other field unchanged |
| FormRules.EditKeepsOtherStep | src/components/MainFeature.jsx:57-62 | editing a field of one step leaves the other step's error map unchanged |
| FormRules.Step1ReadsContactFields | src/components/MainFeature.jsx:103-121 | two forms that agree on name, email, company and phone have the same step-1 errors |
| FormRules.CatalogIdsCommaFree | src/components/MainFeature.jsx:40-47 | no product id in the catalog contains a comma |
| FormRules.ShortPhoneFlagged | src/components/MainFeature.jsx:118-120 | the phone "12345" is flagged |
| FormRules.FormattedPhoneAccepted | src/components/MainFeature.jsx:118-120 | the phone "(555) 123-4567" passes |
| ContactService.ToRecord | src/services/ContactService.js:21-31 | the created record's status is "new", whatever the form holds |
| ContactService.RecordRoundTrip | src/services/ContactService.js:21-31 | every form field reaches the record under its table name: reading the record back recovers the form when the product list is non-empty and comma-free |
| ContactService.CatalogSelectionRoundTrip | src/services/ContactService.js:27 | a form that passes step 2 with catalog ids only is recovered from its record |
| ContactService.MutationResult | src/services/ContactService.js:39-43 | create and update return the first result's data exactly when the response is present, `success` is set and `results` is non-empty; a thrown client error is rethrown; any other response raises the operation's failure message |
| ContactService.RequestParams | src/services/ContactService.js:62-66 | the merged parameters have the default keys and the caller's; a caller's key replaces the default, and the defaults it leaves out stay |
| ContactService.DefaultFetch | src/services/ContactService.js:56-66 | without caller keys a fetch asks for the fixed field list, ordered by `CreatedOn` descending |
| ContactService.UpdateRecord | src/services/ContactService.js:101-106 | the update record has `Id` and every key of the update data; the update data's values win, so `Id` is the request id unless the data overrides it |
| ContactService.StatusUpdateRecord | src/services/ContactService.js:101-106 | a status change sends exactly `{ Id, status }` |
| ContactService.DeleteResult | src/services/ContactService.js:126-136 | delete returns true exactly when the response is present with `success` set; a thrown client error is rethrown; otherwise it raises "Failed to delete contact request" |
| IntakeForm.RemoveAll | src/components/MainFeature.jsx:85 | unchecking leaves no copy of the id, keeps every other item, and never grows the list |
| IntakeForm.RemoveAllAppend | src/components/MainFeature.jsx:85 | the filter keeps the order of what stays: it distributes over concatenation |
| IntakeForm.RemoveAllAbsent | src/components/MainFeature.jsx:85 | unchecking an id that is not selected changes nothing |
| IntakeForm.Toggled | src/components/MainFeature.jsx:77-86 | checking appends the id after the ids already selected; unchecking leaves no copy of it; no other id enters or leaves the list |
| IntakeForm.CheckThenUncheck | src/components/MainFeature.jsx:74-88 | check then uncheck removes every copy of the id and keeps the rest in order; if the id was absent before, the list is as it was |
| IntakeForm.CheckTwiceDuplicates | src/components/MainFeature.jsx:77-81 | checking appends at the end and does not deduplicate: checking twice adds two copies |
| IntakeForm.RemoveAllNoDuplicates | src/components/MainFeature.jsx:85 | unchecking keeps a duplicate-free list duplicate-free |
| IntakeForm.ToggleKeepsNoDuplicates | src/components/MainFeature.jsx:74-88 | when a check event only fires for an absent id, the list stays duplicate-free and holds the id exactly when the event checked it |
| IntakeForm.IntakeForm.constructor | src/components/MainFeature.jsx:21-37 | the form starts empty, with request type "quote", no products, no errors, on step 1, neither submitting nor submitted |
| IntakeForm.IntakeForm.HandleChange | src/components/MainFeature.jsx:57-71 | the named field takes the value and no other field changes; that field's error is cleared to "" only if one was shown; every other error stays; editing a field of the step on display keeps step 1 confirmed |
| IntakeForm.IntakeForm.HandleCheckboxChange | src/components/MainFeature.jsx:74-88 | checking appends the id, unchecking removes every copy of it; nothing else in the form changes |
| IntakeForm.IntakeForm.HandleRequestTypeChange | src/components/MainFeature.jsx:91-96 | only the request type changes |
| IntakeForm.IntakeForm.ValidateForm | src/components/MainFeature.jsx:99-138 | the error map becomes the current step's, and the result is true exactly when the current step passes |
| IntakeForm.IntakeForm.HandleNextStep | src/components/MainFeature.jsx:141-147 | from step 1 the form moves to step 2 exactly when step 1 passes, and otherwise stays on step 1; the errors become the step's |
| IntakeForm.IntakeForm.HandlePrevStep | src/components/MainFeature.jsx:150-152 | the step becomes 1, whatever it was |
| IntakeForm.IntakeForm.HandleSubmit | src/components/MainFeature.jsx:155-194 | a failing step sends nothing and leaves both flags alone; a passing step sends exactly the one mapped record; `submitted` becomes true exactly when the store acknowledges it; `isSubmitting` ends false; the form and the step are kept either way; a record sent from step 2 passes both steps |
| IntakeForm.IntakeForm.ResetAfterDelay | src/components/MainFeature.jsx:174-187 | the timer restores the default record (request type "quote", no products), clears `submitted` and returns to step 1 |
| IntakeForm.ExampleEmailShape | src/components/MainFeature.jsx:110 | "jane@co.com" has the email shape |
| IntakeForm.ExampleParts | src/components/MainFeature.jsx:110 | the parts of "jane@co.com" around its '@' match `[^\s@]+`, and the domain has an inner '.' |
| IntakeForm.ExampleContactPasses | src/components/MainFeature.jsx:103-121 | a form with name "Jane Doe", email "jane@co.com", company "Acme" and no phone passes step 1 |
| IntakeForm.ExampleDetailsPass | src/components/MainFeature.jsx:124-134 | a form with one product and the message "Please quote this part" passes step 2 |
| Triage.PageParams | src/pages/ContactRequests.jsx:16-28 | the caller's parameters hold one page of `pageSize` at offset `(page - 1) * pageSize`, plus a `status equals` condition exactly when the filter is not "all", and nothing else |
| Triage.FetchRequestShape | src/pages/ContactRequests.jsx:16-28 | a list fetch asks for one page at offset `(page - 1) * pageSize`, with the field list and newest-first order, and carries a `status equals` condition exactly when the filter is not "all" |
| Triage.CeilDiv | src/pages/ContactRequests.jsx:37 | `Math.ceil(t / p)` is the least `q` with `t <= q * p` |
| Triage.TotalRecords | src/pages/ContactRequests.jsx:36 | `total \|\| length`: a present non-zero total is used as is; a missing or zero total falls back to the length of the returned page |
| Triage.TotalPages | src/pages/ContactRequests.jsx:36-37 | the page count covers every record and one page fewer would not; an empty page with no total gives 0 pages; any record gives at least one page |
| Triage.TwelveRecordsTwoPages | src/pages/ContactRequests.jsx:36-37 | a total of 12 gives 2 pages of 10 |
| Triage.ApplyStatus | src/pages/ContactRequests.jsx:60-64 | exactly the entries with the given `Id` take the new status; length, order and every other entry are unchanged |
| Triage.RemoveId | src/pages/ContactRequests.jsx:79-81 | no entry with the `Id` is left, every other entry is, and the list shrinks by the number of entries removed |
| Triage.RemoveIdAppend | src/pages/ContactRequests.jsx:79-81 | deleting keeps the order of the rest: the filter distributes over concatenation |
| Triage.RemoveIdAbsent | src/pages/ContactRequests.jsx:79-81 | deleting an `Id` that is not listed leaves the list as it is |
| Triage.BadgeLabel | src/pages/ContactRequests.jsx:122-123 | "in-progress" shows "In Progress"; any other status shows with its first character upper-cased and the rest unchanged |
| Triage.BadgeLabelsMatchOptions | src/pages/ContactRequests.jsx:122-123 | the badges of the four statuses read "New", "In Progress", "Completed", "Cancelled" |
| Triage.ContactRequestsPage.constructor | src/pages/ContactRequests.jsx:6-11 | the page starts empty, loading, on page 1 of 1, filter "all" |
| Triage.ContactRequestsPage.FetchContactRequests | src/pages/ContactRequests.jsx:13-49 | sends the page's parameters; data replaces the list and sets the page count to `ceil((total \|\| length) / 10)`; a response without data empties the list and sets one page; a thrown call empties the list and keeps the page count; loading ends false |
| Triage.ContactRequestsPage.Reload | src/pages/ContactRequests.jsx:51-53 | the refetch asks for the current page under the current filter; data replaces the list and sets the page count from the total; a response without data empties the list and sets one page; a thrown call empties the list and keeps the page count; loading ends false |
| Triage.ContactRequestsPage.HandleStatusChange | src/pages/ContactRequests.jsx:55-71 | sends `{ Id, status }`; on an acknowledged update exactly the entries with that `Id` take the status; on failure the list is untouched |
| Triage.ContactRequestsPage.HandleDelete | src/pages/ContactRequests.jsx:73-89 | declined: nothing is sent and the list is unchanged; confirmed: the `Id` is sent, and its entries leave the list exactly when the store reports success |
| Triage.ContactRequestsPage.HandleFilterChange | src/pages/ContactRequests.jsx:91-94 | the filter takes the new value and the page is 1, whatever it was |
| Triage.ContactRequestsPage.ClickShowAll | src/pages/ContactRequests.jsx:274-281 | the button acts only on a loaded, empty list under a filter other than "all"; it sets the filter to "all" and leaves the page as it was |
| Triage.ContactRequestsPage.HandlePageChange | src/pages/ContactRequests.jsx:96-98 | the page becomes the requested one |
| Triage.ContactRequestsPage.ClickPrevious | src/pages/ContactRequests.jsx:235-244 | the page goes down by one only when the bar is shown and the page is not 1; a page within `[1, totalPages]` stays within it |
| Triage.ContactRequestsPage.ClickNext | src/pages/ContactRequests.jsx:246-256 | the page goes up by one only when the bar is shown and the page is not the last; a page within `[1, totalPages]` stays within it |
| Dashboard.CountStatus | src/pages/Dashboard.jsx:31-34 | a status is counted at most once per fetched request |
| Dashboard.CountStatusZero | src/pages/Dashboard.jsx:31-34 | a status is counted 0 times exactly when no fetched request has it |
| Dashboard.ComputeStats | src/pages/Dashboard.jsx:31-42 | the total is the number of requests fetched, and no status counter exceeds it |
| Dashboard.StatusSumIsKnownCount | src/pages/Dashboard.jsx:31-34 | the four status counters add up to the number of requests whose status is one of the four, which is at most the number fetched |
| Dashboard.CountKnownIsTotal | src/pages/Dashboard.jsx:31-34 | every fetched request is counted exactly when each has one of the four statuses |
| Dashboard.StatsSummary | src/pages/Dashboard.jsx:31-42 | the total is the number fetched; the four counters sum to at most the total, with equality exactly when every status is one of the four |
| Dashboard.InsertPermutes | src/pages/Dashboard.jsx:45-47 | inserting adds exactly the one record |
| Dashboard.InsertSorted | src/pages/Dashboard.jsx:45-47 | inserting into a newest-first list keeps it newest first |
| Dashboard.SortByCreatedDesc | src/pages/Dashboard.jsx:45-47 | the sorted copy is newest first and is a permutation of the fetched list |
| Dashboard.InsertCreatedAt | src/pages/Dashboard.jsx:45-47 | inserting places the record before every record created at the same time |
| Dashboard.SortIsStable | src/pages/Dashboard.jsx:45-47 | the sort is stable: records created at the same time keep their fetched order |
| Dashboard.RecentRequests | src/pages/Dashboard.jsx:45-48 | the recent list holds `min(5, n)` of the fetched records, newest first |
| Dashboard.SortedSplit | src/pages/Dashboard.jsx:45-48 | in a newest-first list nothing after a cut is newer than anything before it |
| Dashboard.RecentRequestsNewest | src/pages/Dashboard.jsx:45-48 | no fetched record left out of the recent list is newer than one in it |
| Dashboard.DashboardPage.constructor | src/pages/Dashboard.jsx:8-16 | the counters start at zero, the recent list empty, loading |
| Dashboard.DashboardPage.FetchDashboardData | src/pages/Dashboard.jsx:20-56 | sends a fetch limited to 100; data sets the counters and the recent list from it; a response without data or a thrown call keeps both; loading ends false |

## Left out

- The store client (`createRecord`, `fetchRecords`, `updateRecord`,
  `deleteRecord`): outside the model. Each call's outcome is a `Reply`
  parameter, so the proofs hold for every outcome. The `Reply` also stands
  in for the service's rethrow, since the page handlers only see whether
  a service call threw.
- `getContactRequestById` in `src/services/ContactService.js` is not part
  of this model: no page in the modelled core calls it.
- Asynchrony: handlers run to completion one at a time. Overlapping
  fetches that resolve out of order are not modelled. The intermediate
  `loading == true` and `isSubmitting == true` states are set but not
  observable between steps.
- The five-second timer after a successful submission is the separate
  method `ResetAfterDelay`. Nothing forces it to run, and a user may act
  before it does.
- Toasts, `console.error`, `scrollIntoView`, JSX rendering and CSS
  classes: not modelled. `window.confirm` is the boolean `confirmed`.
- `new Date(...)` parsing and `toLocaleDateString`: `CreatedOn` is an
  integer, later times being larger.
- Strings are sequences of characters. UTF-16 code-unit lengths (for the
  10-character message and the 10-15 character phone) equal character
  counts only for characters in the Basic Multilingual Plane.
- Text.UpperAscii: does not model `toUpperCase` beyond ASCII letters
  (for example "é" or "ß"), because the badge statuses are ASCII.
- IntakeForm.IntakeForm.HandleChange: requires a text field, since the
  handler is bound only to the text inputs (name, email, phone, company,
  message, deadline). React's closure over the state of the last render
  is not modelled.
- The request-type cards and the status selector offer fixed values. The
  handlers accept any string, and the model keeps it that way.
