# Visa compliance dashboard — a Dafny model

This project models the core of a visa-tracking dashboard. It covers the HR
staff's views, the data service behind them and the expiry-alert endpoints of
the back end:

- `datatable.dfy` (`DataTable`): the visa-case record and the case table's
  display rules. These are the status badge variant and badge style, the row
  band, the date chip, the "Extension Needed" and "Highest Priority" badges,
  and the days-left text and its colour.
- `dashboard.dfy` (`Dashboard`): the four priority tiers and the
  tier-then-days comparator. The stable sort of a copy of the cases is an
  insertion sort, proved sorted, a permutation, stable, idempotent and
  unique. The module also has the order it gives on the bundled cases and the
  five KPI cards.
- `employees.dfy` (`Employees`): the directory's three-way filter, the
  `reduce` that groups the shown employees by department (a method with a
  loop), the alphabetical section and select lists, the page's filter state
  (a class) and the card's days-left label, colour and badge.
- `reports.dfy` (`Reports`): the report's five-way filter, the KPI counts, the
  per-department counting `reduce` (a method with a loop), the top department
  and the three generated insight sentences.
- `addemployee.dfy` (`AddEmployee`): the "Add New Employee" form as a class.
  It has the field update that clears an error, the validation that builds the
  error map, and the submit that hands the data on only when valid.
- `login.dfy` (`Login`): the sign-in form as a class. It has the field checks,
  the test-credential check and the two change handlers that clear errors.
- `employeeprofile.dfy` (`EmployeeProfile`): the case-note panel (a class),
  the derived e-mail address and employee number, and the visa-history rows.
- `dataservice.dfy` (`DataService`): the days-left ceiling, the
  employee-to-case conversion, the look-up by id, the patch merge of
  `updateEmployee` and the statistics.
- `alerts.dfy` (`Alerts`): the back end's per-type thresholds, cooldown,
  alert message, `run_alerts` and `preview_alerts`. The scan is a method on a
  store of visas and alerts, proved against a specification function of the
  stored visas.
- `wrappers.dfy`, `seqs.dfy`, `text.dfy`: `Option`/`Result`, filtering and
  mapping of sequences with their laws, and the string built-ins the views
  use. The string built-ins are lower-casing, the default string sort order,
  number-to-string conversion, `padStart`, replacing whitespace runs,
  `trim()`-emptiness and the `\S+@\S+\.\S+` e-mail test.

Clocks and date parsing are parameters. `today` and `now` are given
explicitly, and `parseDate` stands for `new Date(s).getTime()`. JavaScript's
strict equality between a number and a string is modelled by a small value
type.

## Model

| member | source | states |
|---|---|---|
| DataTable.StatusVariant | frontend/src/components/DataTable.tsx:31-43 | "Active" is default and "Expired" destructive; every other status, "Pending" and unknown strings included, is secondary |
| DataTable.StatusBadgeStyle | frontend/src/components/DataTable.tsx:46-54 | only "Active" and "Processing" get a custom style, and only "Active" the plain green one |
| DataTable.RowBorderColor | frontend/src/components/DataTable.tsx:56-61 | red band up to 30 days (overdue included), yellow for 31-90, green beyond 90 |
| DataTable.DateChipStyle | frontend/src/components/DataTable.tsx:63-67 | red chip when overdue, yellow for 0-60 days, gray beyond 60 |
| DataTable.BadgesExclusive | frontend/src/components/DataTable.tsx:116-125 | "Extension Needed" and "Highest Priority" never show together; neither shows exactly on day 0 or beyond 180 days |
| DataTable.ShowsExtensionNeeded | frontend/src/components/DataTable.tsx:116 | "Extension Needed" shows for 1 to 180 days left, never beside the red date chip |
| DataTable.ShowsHighestPriority | frontend/src/components/DataTable.tsx:121 | "Highest Priority" shows exactly when the count is negative, which is exactly when the date chip is red |
| DataTable.DaysText | frontend/src/components/DataTable.tsx:130 | the cell is the absolute day count in decimal followed by " overdue" exactly when the count is negative and by " days" otherwise |
| DataTable.DaysTextInjective | frontend/src/components/DataTable.tsx:130 | different day counts give different cell texts |
| DataTable.DaysTextColor | frontend/src/components/DataTable.tsx:129 | red exactly when overdue, yellow for 0-30 days, black beyond 30 |
| Dashboard.GetPriority | frontend/src/components/Dashboard.tsx:162-167 | the tier is 1..4, and each tier holds exactly its day range: overdue, 0-30, 31-180, over 180 |
| Dashboard.PriorityMonotone | frontend/src/components/Dashboard.tsx:162-167 | a later expiry never gets a more urgent tier |
| Dashboard.Compare | frontend/src/components/Dashboard.tsx:169-180 | the tier-then-days comparator orders exactly as days left does, ties included |
| Dashboard.SortByPriority | frontend/src/components/Dashboard.tsx:169-180 | the sorted copy is ordered by the comparator and has the input's length |
| Dashboard.SortIsPermutation | frontend/src/components/Dashboard.tsx:169 | the sorted copy holds exactly the input cases, with their multiplicities |
| Dashboard.SortIsStable | frontend/src/components/Dashboard.tsx:169-180 | cases with equal days left keep their input order, as the stable `Array.prototype.sort` does |
| Dashboard.StableSortIsUnique | frontend/src/components/Dashboard.tsx:169-180 | any two sorted, order-preserving arrangements of the same cases are equal, so the displayed order is determined |
| Dashboard.SortIdempotent | frontend/src/components/Dashboard.tsx:169-180 | sorting the sorted list changes nothing |
| Dashboard.SortedAscending | frontend/src/components/Dashboard.tsx:169-180 | along the sorted list both days left and tier never decrease |
| Dashboard.MockSortOrder | frontend/src/components/Dashboard.tsx:9-180 | on the fourteen bundled cases the table lists days -42, -17, 12, 22, 27, 47, 73, 127, 153, 221, 247, 285, 753, 863 |
| Dashboard.ComputeKpis | frontend/src/components/Dashboard.tsx:183-195 | active counts status "Active", expiring counts 1 to 60 days left, expired counts a negative count, pending counts status "Processing"; expiring and expired never overlap, nor do active and pending; expired is exactly tier 1; completed is 312 |
| Dashboard.KpiMembers | frontend/src/components/Dashboard.tsx:183-194 | each card equals the number of positions whose case meets its condition (an expiry today is not "within 60 days") |
| Dashboard.KpisIgnoreOrder | frontend/src/components/Dashboard.tsx:169-195 | the cards are the same whether counted over the bundled or the sorted list |
| Dashboard.BandsFollowTier | frontend/src/components/Dashboard.tsx:162-167 | the table's "Highest Priority" badge is tier 1; tier 1 rows are red, tier 4 rows green/gray; "Extension Needed" is tier 3 or tier 2 after day 0 |
| Employees.FilterEmployees | frontend/src/components/Employees.tsx:157-174 | the shown employees are a subsequence of the directory and every one matches all three criteria |
| Employees.FilterEmployeesMembers | frontend/src/components/Employees.tsx:157-174 | an employee is shown if and only if it is in the directory and matches |
| Employees.NoFiltersShowAll | frontend/src/components/Employees.tsx:138-140 | with the initial filters the whole directory is shown, in order |
| Employees.FilterEmployeesIdempotent | frontend/src/components/Employees.tsx:157-174 | filtering the shown list again shows the same list |
| Employees.SearchIgnoresCase | frontend/src/components/Employees.tsx:159-161 | the name search gives the same answer for a query and its lower-case form |
| Employees.DepartmentIsCaseSensitive | frontend/src/components/Employees.tsx:164-166 | the department select compares exactly: "finance" does not select "Finance" |
| Employees.AddToSection | frontend/src/components/Employees.tsx:178-183 | the callback for one more employee keeps the keys in first-appearance order and every bucket equal to its department's employees so far |
| Employees.GroupByDepartment | frontend/src/components/Employees.tsx:177-185 | the keys are the distinct departments in first-appearance order; each bucket is exactly that department's shown employees, in order; bucket sizes sum to the shown count |
| Employees.SectionSizesAreCounts | frontend/src/components/Employees.tsx:177-185 | summing the buckets over the keys is summing per-department counts |
| Employees.SortStrings | frontend/src/components/Employees.tsx:187 | the default `.sort()` on strings gives an ordered list of the same length |
| Employees.SortStringsPermutation | frontend/src/components/Employees.tsx:187 | the sorted list is a permutation of its input |
| Employees.SortedDepartments | frontend/src/components/Employees.tsx:187 | the section headings are sorted, without duplicates, and are exactly the shown employees' departments |
| Employees.AllDepartments | frontend/src/components/Employees.tsx:190-192 | the select's options are sorted, without duplicates, and are exactly the departments of the whole directory |
| Employees.SectionsAreOptions | frontend/src/components/Employees.tsx:187-192 | every section heading is one of the department select's options |
| Employees.EmployeesView.constructor | frontend/src/components/Employees.tsx:138-140 | the search starts empty and both selects start at "all" |
| Employees.EmployeesView.Shown | frontend/src/components/Employees.tsx:206 | "Showing X of Y": X never exceeds Y |
| Employees.EmployeesView.SetSearchQuery | frontend/src/components/Employees.tsx:220 | sets the query; the selects are unchanged |
| Employees.EmployeesView.SetDepartmentFilter | frontend/src/components/Employees.tsx:226 | sets the department; the other criteria are unchanged |
| Employees.EmployeesView.SetStatusFilter | frontend/src/components/Employees.tsx:241 | sets the status; the other criteria are unchanged |
| Employees.EmployeesView.ClearFilters | frontend/src/components/Employees.tsx:264-268 | restores the initial filters, after which every directory is shown whole |
| Employees.DaysLeftLabel | frontend/src/components/Employees.tsx:328 | a non-negative count is shown as its decimal numeral; a negative one as "Overdue by " and more |
| Employees.DaysLeftLabelInjective | frontend/src/components/Employees.tsx:328 | different day counts give different labels |
| Employees.DaysLeftColor | frontend/src/components/Employees.tsx:318-325 | red exactly when overdue, amber for 0-180 days, green beyond |
| Employees.DaysLeftColorFollowsTier | frontend/src/components/Employees.tsx:318-325 | red is tier 1, amber tiers 2 and 3, green tier 4 of the dashboard |
| Employees.CardStatusVariant | frontend/src/components/Employees.tsx:143-154 | "Processing" is secondary, "Expired" destructive, everything else default |
| Employees.CardAndTableVariants | frontend/src/components/Employees.tsx:143-154 | the card's and the table's badge agree on a status exactly when it is not pending or unknown |
| Reports.FilterReport | frontend/src/components/Reports.tsx:239-257 | the listed rows are a subsequence of the data, each matching all five criteria, never more than the data |
| Reports.FilterReportMembers | frontend/src/components/Reports.tsx:239-257 | a row is listed if and only if it is in the data and matches all five criteria |
| Reports.DefaultFiltersShowAll | frontend/src/components/Reports.tsx:229-233 | with every criterion at its initial value all rows are listed, in order |
| Reports.FilterReportIdempotent | frontend/src/components/Reports.tsx:239-257 | filtering the listed rows again lists the same rows |
| Reports.ComputeReportKpis | frontend/src/components/Reports.tsx:260-293 | the total is the listed count; active, expired and processing count those statuses and the H-1B count that visa type; active plus expired, and active plus processing, never exceed the total |
| Reports.ReportKpiCounts | frontend/src/components/Reports.tsx:260-293 | each report count equals the number of listed positions meeting its condition |
| Reports.ReportKpisIgnoreOrder | frontend/src/components/Reports.tsx:260-262 | the counts do not depend on the order of the rows |
| Reports.DeptCountSpec | frontend/src/components/Reports.tsx:288-291 | a department has an entry exactly when some listed row belongs to it |
| Reports.CountRow | frontend/src/components/Reports.tsx:288-290 | the callback for one more row keeps the keys in first-appearance order and every count equal to its department's rows so far |
| Reports.DeptCounts | frontend/src/components/Reports.tsx:288-291 | the loop yields the distinct departments in first-appearance order with each one's row count, summing to the listed total |
| Reports.DeptCountsSumToTotal | frontend/src/components/Reports.tsx:288-291 | the department counts sum to the number of listed rows |
| Reports.DeptCountPositive | frontend/src/components/Reports.tsx:288-291 | every department entry counts at least one row |
| Reports.FirstMax | frontend/src/components/Reports.tsx:292 | the first entry with the largest count: no entry is larger, and every earlier one is smaller (a stable descending sort puts it first) |
| Reports.TopDept | frontend/src/components/Reports.tsx:292 | none exactly when there are no entries; otherwise a listed department with its count, no count is larger, and every department inserted before it has a smaller count (the stable sort keeps the first of equal counts) |
| Reports.TopDeptInsight | frontend/src/components/Reports.tsx:296 | with no top entry the sentence is "Engineering ... (0)."; a non-empty top name starts the sentence; the sentence ends in the top count (0 when none) |
| Reports.EmptyReportInsight | frontend/src/components/Reports.tsx:288-296 | with no rows listed the first insight says "Engineering holds the highest number of active visas (0)." |
| Reports.H1bInsight | frontend/src/components/Reports.tsx:287-297 | the H-1B count can be read back from the sentence |
| Reports.PendingInsight | frontend/src/components/Reports.tsx:293-298 | the sentence starts with the count; "employee has" for exactly 1, "employees have" otherwise |
| Reports.PendingInsightInjective | frontend/src/components/Reports.tsx:298 | different counts give different sentences |
| AddEmployee.Set | frontend/src/components/AddEmployee.tsx:42 | the named field takes the value and every other field keeps its own |
| AddEmployee.FormErrors | frontend/src/components/AddEmployee.tsx:53-73 | each required field is in the error map if and only if its check fails, with the right message; optional fields never are; the map is empty if and only if all four checks pass |
| AddEmployee.EditIsLocal | frontend/src/components/AddEmployee.tsx:41-51 | editing one field changes no other field's validation error |
| AddEmployee.OptionalFieldsNeverBlock | frontend/src/components/AddEmployee.tsx:53-73 | job title, visa type, status and notes never affect validation |
| AddEmployee.AddEmployeeForm.constructor | frontend/src/components/AddEmployee.tsx:28-39 | all fields empty, no date, no errors |
| AddEmployee.AddEmployeeForm.HandleInputChange | frontend/src/components/AddEmployee.tsx:41-51 | stores the value and drops that field's error when it has one; other errors and the date stay |
| AddEmployee.AddEmployeeForm.SelectDate | frontend/src/components/AddEmployee.tsx:38 | sets the date and nothing else |
| AddEmployee.CollectErrors | frontend/src/components/AddEmployee.tsx:54-69 | the four checks build exactly the error map `FormErrors` |
| AddEmployee.ErrorsAgreeOutside | frontend/src/components/AddEmployee.tsx:53-73 | forms whose field errors agree outside one field have error maps that agree outside it |
| AddEmployee.AddEmployeeForm.ValidateForm | frontend/src/components/AddEmployee.tsx:53-73 | the recorded errors are exactly `FormErrors` of the fields, and the result is true exactly when there are none |
| AddEmployee.AddEmployeeForm.HandleSubmit | frontend/src/components/AddEmployee.tsx:75-85 | the fields and date are handed on exactly when validation passes; the errors are recorded either way |
| Login.FieldErrors | frontend/src/components/Login.tsx:34-42 | "Email is required" exactly for the empty string, "invalid" exactly for a non-empty non-match, no e-mail error exactly on a match; a password error exactly for an empty password |
| Login.AdminCredentialsPassChecks | frontend/src/components/Login.tsx:34-42 | the test credentials pass both field checks |
| Login.BlankEmailMessagesDiffer | frontend/src/components/Login.tsx:36-39 | a whitespace-only e-mail is "invalid" on sign-in but "required" on the employee form |
| Login.LoginForm.constructor | frontend/src/components/Login.tsx:15-24 | empty inputs, not loading, no errors |
| Login.LoginForm.HandleSubmit | frontend/src/components/Login.tsx:26-61 | sign-in succeeds exactly on the test credentials; with field errors those are shown and the credentials are not checked; otherwise only the general error; loading ends in every branch |
| Login.LoginForm.HandleEmailChange | frontend/src/components/Login.tsx:63-68 | stores the input, clears the e-mail and general errors and keeps the password error |
| Login.LoginForm.HandlePasswordChange | frontend/src/components/Login.tsx:70-75 | stores the input, clears the password and general errors and keeps the e-mail error |
| EmployeeProfile.NotePanel.constructor | frontend/src/components/EmployeeProfile.tsx:31-48 | the two initial notes, an empty closed input |
| EmployeeProfile.NotePanel.ToggleNoteInput | frontend/src/components/EmployeeProfile.tsx:144 | flips the input box; notes and text stay |
| EmployeeProfile.NotePanel.SetNewNote | frontend/src/components/EmployeeProfile.tsx:275 | stores the typed text; notes and box stay |
| EmployeeProfile.NotePanel.HandleAddNote | frontend/src/components/EmployeeProfile.tsx:70-88 | a blank text changes nothing; otherwise the note, by "Current Admin" with the text as typed, goes in front of the list and the box is cleared and closed |
| EmployeeProfile.NotePanel.Cancel | frontend/src/components/EmployeeProfile.tsx:290-293 | clears and closes the box; the notes stay |
| EmployeeProfile.DerivedEmail | frontend/src/components/EmployeeProfile.tsx:105 | the address is the per-position replacement of the lower-cased name (each character kept, the first whitespace of a run turned into ".", the rest of the run dropped) followed by "@umbc.edu"; apart from the dots it is the lower-cased name without whitespace |
| EmployeeProfile.DerivedEmailOfOneWord | frontend/src/components/EmployeeProfile.tsx:105 | a name without whitespace is only lower-cased |
| EmployeeProfile.DerivedEmailOfTwoWords | frontend/src/components/EmployeeProfile.tsx:105 | two words around any whitespace run give "first.last@umbc.edu", lower-cased |
| EmployeeProfile.EmployeeId | frontend/src/components/EmployeeProfile.tsx:106 | "EMP-", then '0's, then the id, five characters at least after the prefix; a long id is not padded |
| EmployeeProfile.EmployeeIdValue | frontend/src/components/EmployeeProfile.tsx:106 | the digits after "EMP-" have the id's value |
| EmployeeProfile.EmployeeIdInjective | frontend/src/components/EmployeeProfile.tsx:106 | different numeric ids give different employee numbers |
| EmployeeProfile.VisaHistory | frontend/src/components/EmployeeProfile.tsx:51-68 | two rows: the case's current visa type, status and expiration, then the fixed earlier F-1 |
| DataService.CalculateDaysLeft | frontend/utils/dataService.ts:41-47 | the result is the ceiling of the difference in days: (r-1) days < difference <= r days |
| DataService.DaysLeftIsCeiling | frontend/utils/dataService.ts:41-47 | the whole number with that property is unique |
| DataService.DaysLeftSign | frontend/utils/dataService.ts:41-47 | the count is negative exactly when the expiry is at least a full day past, and 0 within the last day |
| DataService.DaysLeftMonotone | frontend/utils/dataService.ts:41-47 | a later expiration never has fewer days left |
| DataService.EmployeeToVisaCase | frontend/utils/dataService.ts:50-65 | the case copies the record's fields, its id is the id as a string, and its days left is `calculateDaysLeft` of the expiry: the whole number of days r with (r-1) days < expiry - now <= r days, negative exactly when the expiry is a full day past |
| DataService.DaysLeftWithin60 | frontend/utils/dataService.ts:244 | 1 to 60 days left exactly when the expiry is after now and at most sixty days ahead |
| DataService.FetchVisaCases | frontend/utils/dataService.ts:75-96 | one case per employee, in order |
| DataService.Find | frontend/utils/dataService.ts:132 | none exactly when no element passes; otherwise the first element that passes |
| DataService.FetchFindsCaseEmployee | frontend/utils/dataService.ts:128-143 | with distinct ids, looking up a case's id finds the employee it came from |
| DataService.FetchEmployeeById | frontend/utils/dataService.ts:128-143 | none exactly when no id reads as the argument; otherwise the first employee whose id reads as it |
| DataService.StrictEquals | frontend/utils/dataService.ts:183 | values of different kinds are never equal; values of the same kind are equal exactly when identical |
| DataService.Merge | frontend/utils/dataService.ts:189 | each field takes the patch's value when present and keeps the record's otherwise |
| DataService.MergeLaws | frontend/utils/dataService.ts:189 | an empty patch is the identity and a patch applied twice is applied once |
| DataService.UpdateAsWrittenAlwaysFails | frontend/utils/dataService.ts:179-206 | as written, every update reports "not found" |
| DataService.UpdateEmployeeAsWritten | frontend/utils/dataService.ts:179-188 | as written: not found exactly when no id is strictly equal to the string argument |
| DataService.UpdateEmployee | frontend/utils/dataService.ts:179-206 | fails with "not found" exactly when the look-up finds nothing; otherwise returns the found record merged with the patch |
| DataService.UpdateDiscrepancy | frontend/utils/dataService.ts:183 | for an employee with id 7 and the id "7", the corrected update succeeds where the as-written one fails |
| DataService.StatusCountCarries | frontend/utils/dataService.ts:243 | converting employees to cases keeps the number with each status |
| DataService.ExpiredCountCarries | frontend/utils/dataService.ts:245 | a case is overdue exactly when its employee's expiration is a full day or more past |
| DataService.ExpiringCountCarries | frontend/utils/dataService.ts:244 | a case is within 60 days exactly when its employee's expiry is after now and at most sixty days ahead |
| DataService.NoProcessingAmongDeclared | frontend/utils/dataService.ts:246 | with only the declared statuses no employee is "Processing" |
| DataService.FetchStatistics | frontend/utils/dataService.ts:238-248 | the cards count active employees, employees whose expiry is after now and at most sixty days ahead, employees a full day or more past, and "Processing" ones; with only the declared statuses "pending" is always 0 |
| Alerts.DaysUntil | backend/routes.py:20-22 | the day count takes today to the expiration date; negative exactly when past |
| Alerts.VisaIsWithinThreshold | backend/routes.py:25-35 | an unknown type never alerts and reports threshold 0; a known type alerts exactly when the days left are within its threshold |
| Alerts.KnownTypes | backend/routes.py:9-12 | only "H1-B" and "J-1" have thresholds; "H-1B" does not |
| Alerts.ExpiredKnownTypeAlerts | backend/routes.py:25-35 | an expired visa of a known type always qualifies |
| Alerts.StampStartsCooldown | backend/routes.py:38-42 | a stamp silences a visa for seven days and not longer; an unstamped visa is never in cooldown |
| Alerts.IsInCooldown | backend/routes.py:38-42 | a visa never alerted is not in cooldown; one in cooldown was alerted less than seven days before now |
| Alerts.CooldownEnds | backend/routes.py:38-42 | a visa out of cooldown stays out of it as time passes |
| Alerts.MakeAlertMessage | backend/routes.py:45-56 | the message starts "Your <type> visa " and reads "expired N day(s) ago" with N = -days when past, "will expire in N day(s)" otherwise |
| Alerts.MessageDeterminesDays | backend/routes.py:45-56 | the message determines the days left |
| Alerts.MessageWording | backend/routes.py:45-56 | "expired " precedes N and " day(s) ago. Please update your records immediately." when past; "will expire in " precedes N and " day(s). This is within the <threshold>-day alert window. Please update your information." follows it otherwise |
| Alerts.WindowTailNamesThreshold | backend/routes.py:54 | the window sentence carries the threshold's numeral |
| Alerts.MessageDeterminesThreshold | backend/routes.py:52-56 | for a visa not yet past, the message determines the threshold |
| Alerts.OutcomeOf | backend/routes.py:105-119 | unknown types are counted as skipped, qualifying visas in cooldown as skipped, the others get an alert |
| Alerts.ScanReport | backend/routes.py:89-130 | each selected visa is counted at most once; every alert is "expiry_window" stamped now; with a user filter every alert is that user's |
| Alerts.RerunWithinCooldown | backend/routes.py:105-119 | a visa alerted by one run is not alerted again by any run less than seven days later |
| Alerts.Preview | backend/routes.py:140-169 | one entry per qualifying selected visa, each within its threshold |
| Alerts.RunIsPreviewWithoutCooldown | backend/routes.py:140-169 | at the same instant the run alerts exactly the previewed visas not in cooldown, in the same order |
| Alerts.AlertStore.constructor | backend/routes.py:102 | the store holds the given visas and no alerts |
| Alerts.AlertStore.CreateAlert | backend/routes.py:59-70 | appends the alert for the visa and stamps that visa with now; nothing else changes |
| Alerts.AlertStore.ScanVisa | backend/routes.py:106-119 | one loop step: its outcome, its alert if any, and the visa stamped exactly when alerted |
| Alerts.AlertStore.RunAlerts | backend/routes.py:89-130 | the response is `ScanReport` of the stored visas; exactly the alerted visas are stamped; the alerts are appended in scan order |
| Alerts.AlertStore.PreviewAlerts | backend/routes.py:140-169 | the preview is `Preview` of the stored visas and nothing is stored |
| Alerts.StampedUpTo | backend/routes.py:105-119 | after i loop steps the first i visas are stamped and the rest are as stored |
| Alerts.ReportUpToIsFilter | backend/routes.py:94-119 | after i loop steps the counts and alerts are those of the first i visas |
| Alerts.ReportDone | backend/routes.py:89-130 | once every visa is scanned, the running counts and alerts are the response `ScanReport` describes |
| Alerts.AlertStore.Advance | backend/routes.py:106-119 | one loop iteration takes the stamped visas, the counts and the stored alerts from i scanned visas to i + 1 |
| Text.ReplaceSpaceRunsKeepsText | frontend/src/components/EmployeeProfile.tsx:105 | replacing whitespace runs keeps every non-whitespace character in order |
| Text.ReplaceSpaceRunsIsPieces | frontend/src/components/EmployeeProfile.tsx:105 | `replace(/\s+/g, sep)` equals the per-position reference: keep non-whitespace, `sep` for the first whitespace of a run, nothing for the rest |
| Text.ReplaceTwoWords | frontend/src/components/EmployeeProfile.tsx:105 | two words around a whitespace run become the words joined by one `sep` |
| Text.PadStartValue | frontend/src/components/EmployeeProfile.tsx:106 | left-padding a numeral with '0' keeps its value |
| Text.MatchImpliesNotBlank | frontend/src/components/AddEmployee.tsx:62-66 | a string matching `\S+@\S+\.\S+` is not blank after trimming |
| Text.IntToStringInjective | frontend/utils/dataService.ts:132 | `toString` on integers is injective |

## Left out

- JSX, styling classes beyond the colour they select, icons, navigation (TopNav, SideNav, AppShell) and the Reports period and date inputs and admin notes: they are presentation, not logic.
- `async`, `fetch`, `setTimeout` and `console`: the service's mock-data reads are modelled as functions of the employee list; the sign-in's 1.5 s delay is run at once.
- Date parsing and formatting: `new Date(s).getTime()` is the parameter `parseDate`, `Date.now()` and the locale date of a new note are parameters, and the picked expiration date is held already formatted. An invalid date (NaN) is not modelled.
- DataService.CalculateDaysLeft: divides exactly, where the source divides in floating point before `Math.ceil`; the two agree unless the millisecond difference is too large for a double's exact division.
- Reports' average length of stay (`avgStayMonths`, `avgYears`, `avgMonths`) is left out: it is floating-point arithmetic that divides by zero on an empty list.
- Reports' and the profile's own `getStatusVariant` are the same switch as Employees.CardStatusVariant and are not modelled twice.
- `Object.keys` and `Object.entries` put integer-like keys first; the department key order is modelled as insertion order, which is right for department names.
- `createEmployee`, `deleteEmployee` and `fetchEmployees` only return mock data or a constant; they are not modelled.
- DataService.Merge: a patch key present with the value `undefined` overwrites the field in JavaScript; a patch field here is either absent or a value.
- Login: the show-password and remember-me toggles change no checked state and are left out.
- Error messages are non-empty strings, so the model's `Some` stands for a truthy message.
- Flask routing, SQLAlchemy sessions and commits, and the database's row order: the stored visas are a sequence scanned in order.
- `_serialize_alert` and `list_user_alerts` format and read back stored alerts without logic of their own.
- Text.ToLower: `toLowerCase` is modelled character by character on the ASCII, Latin-1 (À to Þ) and Cyrillic (Ѐ to Я) capitals only. Other scripts' capitals (Greek, Latin Extended and beyond) stay as they are, and the context- and length-changing mappings (final sigma, "İ" to "i̇") are not modelled. So Employees.FilterEmployees, Reports.FilterReport and EmployeeProfile.DerivedEmail can differ from the source on names that use them.
- Employees.FilterEmployees: the name search lower-cases through Text.ToLower, so it misses a match that needs a case mapping Text.ToLower leaves out.
- Reports.FilterReport: the report search lower-cases through Text.ToLower, so it misses a match that needs a case mapping Text.ToLower leaves out.
- EmployeeProfile.DerivedEmail: the address is lower-cased through Text.ToLower. For names outside the mapped ranges it keeps capitals that `toLowerCase` would lower.
- Text.StringLe: `sort()` compares UTF-16 code units, and the model compares characters (Unicode scalar values). The two orders differ only when a name contains a character outside the Basic Multilingual Plane.
- A department named after an `Object.prototype` member (such as "constructor") is an ordinary key here. In the source `acc[dept]` is then already set, so Employees.GroupByDepartment's `push` throws and Reports.DeptCounts' `(acc[d] || 0) + 1` concatenates a string.
- Alerts.CreateAlert: the source reads the clock twice (`created_at` and `last_alerted_at`); both are the single instant `now`.

## Findings

| source | as written | input that shows it | evidently intended | confidence | as-written member | corrected member |
|---|---|---|---|---|---|---|
| frontend/utils/dataService.ts:183 | `employees.find(emp => emp.id === id)` compares the numeric id with the string argument by strict equality, so no employee is ever found and every update throws "not found" | an employee with id 7 updated by the id "7" | compare `emp.id.toString() === id`, as `fetchEmployeeById` does at line 132 | not executed; assumes ids are numbers, as the `Employee` interface declares | DataService.UpdateAsWrittenAlwaysFails | DataService.UpdateEmployee |
