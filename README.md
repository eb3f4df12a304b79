# HRMS Lite: the record-management pages, their attendance client and the employee schema

HRMS Lite is a small human-resources application. A React front end has two
record-management pages. The **Employees** page creates, edits and deletes
employees. The **Attendance** page marks, edits and deletes one employee's
attendance records. A FastAPI back end validates employee bodies with
pydantic schemas. This project models four pieces of it in Dafny:

- `attendance_page.dfy`, module `AttendancePage`: the attendance page.
  - Its derived values are functions: the selected employee, the date-filtered
    list, the Present/Absent counts, `canSubmit` and `fieldErrors`.
  - Its component state is the class `Attendance`. Each handler (`loadEmployees`,
    `loadAttendance`, `resetForm`, `onEdit`, `onSubmit`, `onDelete`, and the input
    changes) is a method whose field-level `modifies` frame and `ensures` give the
    new state.
- `employees_page.dfy`, module `EmployeesPage`: the employees page, built the
  same way around the class `Employees`.
  - It adds lemmas relating the bodies the page sends to what the server's schema
    accepts.
- `employee_schema.dfy`, module `EmployeeSchema`: `EmployeeCreate` and
  `EmployeeUpdate` as validation functions over a JSON object, and `EmployeeOut`
  as a predicate over the stored record.
  - Undeclared keys are ignored.
  - Failures report the set of failing fields.
  - A `YYYY-MM-DD` date parser and formatter come with their round trip.
- `attendance_service.dfy`, module `AttendanceService`: the attendance client's
  query parameters and resource paths.

Shared modules:

- `js.dfy` (`Js`): the JavaScript semantics the pages rely on. This covers
  truthiness, `trim()` over the ECMAScript whitespace set, `Number(string)`,
  `String(integer)` and `filter`.
- `remote.dfy` (`Remote`): what crosses the network. This covers JSON values, the
  records, the error-text rule `detail || message || fallback`, how a remote call
  ends (`Outcome`), and the service calls a handler makes (`Call`).
- `common.dfy` (`Common`): `Option`, `Result`, and the truthiness test on
  `editingId` that both pages share.

Remote calls and I/O are parameters:

- Every remote call is an `Outcome` parameter (done with a value, or failed with
  an error).
- A handler runs to completion and returns the calls it made, in order.
- The `confirm()` answer is a boolean.
- "Today" is a parameter.
- The e-mail check of `EmailStr` is a parameter `isEmail`.

Behaviour reproduced as written:

- Both pages test `editingId` by truthiness, so an id of 0 means create mode
  (`Common.IsEditing`).
- The Employees page computes its initial draft once, when the module loads. Its
  reset therefore restores the date of the load day (`loadDay`), not the current
  day.
- The Attendance page's reset uses the current day (`today`).

## Model

| member | source | states |
|---|---|---|
| Js.Trim | frontend/src/pages/Employees.jsx:72-74 | `trim()` never lengthens a string and gives "" exactly when the string is all whitespace, which is when a required field counts as blank |
| Js.TrimShape | frontend/src/pages/Employees.jsx:149-151 | the trimmed text is a slice of the input with only whitespace cut from either end, and it neither starts nor ends with whitespace |
| Js.TrimIdempotent | frontend/src/pages/Employees.jsx:149-151 | trimming an already trimmed value changes nothing |
| Js.TrimUntouched | frontend/src/pages/Employees.jsx:149-151 | a non-empty text without surrounding whitespace is its own trim |
| Js.NatToDecimal | frontend/src/pages/Attendance.jsx:154 | the decimal spelling of a natural number is a non-empty run of digits, has no leading zero, and reads back as the number |
| Js.IntToString | frontend/src/pages/Attendance.jsx:154 | `String(n)` of an integer is never empty (its spelling is stated by `IntToStringDigits`) |
| Js.IntToStringDigits | frontend/src/pages/Attendance.jsx:154 | `String(n)` is the decimal spelling of n, after a minus sign when n is negative |
| Js.NumberOf | frontend/src/pages/Attendance.jsx:76 | `Number` of an all-whitespace (or empty) text is 0 (its other cases are stated by `NumberOfCases`) |
| Js.NumberOfCases | frontend/src/pages/Attendance.jsx:76 | `Number` of a blank string is 0; it is NaN exactly when the trimmed text is neither blank nor an optionally signed run of digits |
| Js.NumberOfDigits | frontend/src/pages/Attendance.jsx:76 | `Number` of a run of digits is its decimal value |
| Js.NumberOfIntToString | frontend/src/pages/Attendance.jsx:154 | `Number(String(n)) == n`: an id written into the picker reads back as the same id |
| Js.IntToStringInjective | frontend/src/pages/Attendance.jsx:154 | different ids have different picker texts |
| Js.Filter | frontend/src/pages/Attendance.jsx:83 | `filter` keeps no more than it was given, and everything it keeps passes the test |
| Js.KeptPositions | frontend/src/pages/Attendance.jsx:83 | the passing positions are in range, strictly increasing, and include every position that passes |
| Js.FilterAtKeptPositions | frontend/src/pages/Attendance.jsx:83 | `filter` is the order-preserving subsequence at the passing positions |
| Js.FilterDisjointCounts | frontend/src/pages/Attendance.jsx:86-87 | two filters with disjoint tests keep at most all elements together, and exactly all when every element passes one of them |
| Remote.NumberJson | frontend/src/pages/Attendance.jsx:182 | a number goes into a JSON body as itself, and NaN as null |
| Remote.ErrorText | frontend/src/pages/Attendance.jsx:191 | the message shown is the server detail if any, else the transport message, else the page's fallback, so it is never empty when the fallback is not |
| Remote.ItemsOrEmpty | frontend/src/pages/Attendance.jsx:123 | an array answer is the list; any other answer is the empty list |
| Common.IsEditing | frontend/src/pages/Attendance.jsx:177 | a page is in edit mode exactly when `editingId` is truthy in JavaScript: present and not 0 (the same test as Employees.jsx:73) |
| AttendanceService.ListParamsOf | frontend/src/services/attendance.js:4-6 | the list parameters as a value: `employee_id` present iff the id is truthy and `date` iff it is non-empty, each with its value, and no other key |
| AttendanceService.ListParams | frontend/src/services/attendance.js:3-6 | built one key at a time, the parameters are exactly `ListParamsOf`'s: `employee_id` is sent iff the id is truthy (so 0 and NaN are left out) and `date` iff it is non-empty, each with its value; nothing else is sent, and no parameter at all when neither is given |
| AttendanceService.ListRequest | frontend/src/services/attendance.js:3-8 | a GET on `/attendance` carrying exactly `ListParamsOf`'s parameters |
| AttendanceService.ItemPath | frontend/src/services/attendance.js:17 | a record's path is `/attendance/` followed by text that reads back as its id |
| AttendanceService.ItemPathInjective | frontend/src/services/attendance.js:17 | records with different ids never share a path |
| AttendanceService.CreateRequest | frontend/src/services/attendance.js:11-13 | a create posts its payload unchanged to the collection |
| AttendanceService.UpdateRequest | frontend/src/services/attendance.js:16-18 | an update PUTs its payload unchanged to the record's path |
| AttendanceService.DeleteRequest | frontend/src/services/attendance.js:21-23 | a delete targets the record's path |
| AttendanceService.UpdateDeleteTargets | frontend/src/services/attendance.js:16-23 | an update and a delete address the same record exactly when their ids are equal |
| AttendanceService.RequestFor | frontend/src/services/attendance.js:3-23 | a page's list call is sent as a GET on the collection with exactly the list parameters; a create, update or delete call as a POST to the collection, a PUT or a DELETE on the record's path, with its payload unchanged; the employee calls go through another client and have no request here |
| EmployeeSchema.DaysInMonth | backend/schemas/employee.py:12 | months have 28 to 31 days, and February has 29 exactly in leap years |
| EmployeeSchema.FormatDate | backend/schemas/employee.py:12 | a date is written as ten characters with dashes at positions 4 and 7 |
| EmployeeSchema.ParseDate | backend/schemas/employee.py:19 | only ten-character text naming a real calendar date in years 1 to 9999 is accepted |
| EmployeeSchema.PaddedValue | backend/schemas/employee.py:19 | a zero-padded number that fits its width reads back as the number |
| EmployeeSchema.DigitsPadded | backend/schemas/employee.py:19 | a run of digits is the padded form of its own value |
| EmployeeSchema.ParseFormatDate | backend/schemas/employee.py:12 | a written date parses back to the same date |
| EmployeeSchema.FormatParseDate | backend/schemas/employee.py:19 | text that parses as a date is the written form of that date (one spelling per date) |
| EmployeeSchema.CreateErrors | backend/schemas/employee.py:6-12 | a create reports only declared fields as failing |
| EmployeeSchema.UpdateErrors | backend/schemas/employee.py:15-19 | an update reports only its four declared fields as failing |
| EmployeeSchema.ValidateCreate | backend/schemas/employee.py:6-12 | accepted iff the code has 1..50 characters, the name 1..200, the e-mail is an address, the department 1..100 and the date (when present) is real; accepted values are the body's own text; an omitted date becomes today; a refusal names exactly the failing fields and never none |
| EmployeeSchema.ValidateUpdate | backend/schemas/employee.py:15-19 | accepted iff name, e-mail, department and the required date meet the same constraints; a missing date is always refused, naming the date; a refusal names exactly the failing fields |
| EmployeeSchema.UpdateIgnoresUndeclared | backend/schemas/employee.py:15-19 | adding or removing an undeclared key, such as `employee_id`, never changes update validation, so an update cannot carry a new code |
| EmployeeSchema.CreateIgnoresUndeclared | backend/schemas/employee.py:6-12 | adding an undeclared key never changes create validation |
| EmployeeSchema.Created | backend/schemas/employee.py:22-28 | the output carries the server id plus every create field |
| EmployeeSchema.OutValid | backend/schemas/employee.py:22-28 | an output is valid iff its e-mail is an address and its date a real date; the date's written form then reads back as that date |
| EmployeeSchema.OutValidIgnoresTexts | backend/schemas/employee.py:22-27 | the id and the text fields other than the e-mail carry no constraint (no length bounds): changing them never changes validity |
| EmployeeSchema.CreatedIsValidOut | backend/schemas/employee.py:22-28 | an accepted create, stored under any id, is a valid output (its e-mail an address, its date real) |
| EmployeeSchema.ToJson | backend/schemas/employee.py:22-30 | the JSON form keeps the id, code, name, e-mail and department unchanged, and its date text parses back to the stored date |
| AttendancePage.InitialForm | frontend/src/pages/Attendance.jsx:12-16 | the initial draft names no employee, so the guard rejects it and it cannot be submitted; its date is the load day and its status Present |
| AttendancePage.FindFrom | frontend/src/pages/Attendance.jsx:78 | `find` returns the first position with the id, or reports that none has it |
| AttendancePage.SelectedEmployee | frontend/src/pages/Attendance.jsx:75-79 | the selected employee is the first listed employee whose id is `Number` of the picker value; there is none exactly when that number is 0 or NaN or matches nobody |
| AttendancePage.VisibleRecords | frontend/src/pages/Attendance.jsx:81-84 | with no filter every record is visible; otherwise every visible record is on the filter date |
| AttendancePage.VisibleRecordsAreSubsequence | frontend/src/pages/Attendance.jsx:81-84 | with a filter, the visible records are exactly the records on that date, in list order (possibly none) |
| AttendancePage.PresentCount | frontend/src/pages/Attendance.jsx:86 | the Present count never exceeds the number of loaded records |
| AttendancePage.AbsentCount | frontend/src/pages/Attendance.jsx:87 | the Absent count never exceeds the number of loaded records |
| AttendancePage.CountsPartition | frontend/src/pages/Attendance.jsx:86-87 | the two counts add up to at most the loaded records, and to all of them when every status is Present or Absent |
| AttendancePage.FilterScenario | frontend/src/pages/Attendance.jsx:81-87 | two records filtered on the second one's day show only it, while the counts still cover both |
| AttendancePage.Rejects | frontend/src/pages/Attendance.jsx:170 | a draft with an empty employee or an empty date is rejected (no trimming); a draft that passes names an employee, so the reload after a save fetches that employee's list |
| AttendancePage.CanSubmit | frontend/src/pages/Attendance.jsx:89 | submitting is enabled iff the submit guard passes and a status is chosen |
| AttendancePage.FieldErrors | frontend/src/pages/Attendance.jsx:91-97 | no errors before an attempt; after one, the employee and date errors show exactly when those fields are empty (no trimming), and some error shows exactly when the guard rejects |
| AttendancePage.SaveCall | frontend/src/pages/Attendance.jsx:177-185 | in edit mode an update of the edited id carrying only date and status (no employee); in create mode a create carrying `Number(employee_id)` (NaN as null), date and status |
| AttendancePage.EditDraft | frontend/src/pages/Attendance.jsx:153-157 | the edit draft takes the record's date and status |
| AttendancePage.EditDraftEmployee | frontend/src/pages/Attendance.jsx:154 | the draft's employee text is non-empty and reads back as the record's employee, so the list reloads for that employee |
| AttendancePage.LoadCalls | frontend/src/pages/Attendance.jsx:112-122 | with no employee chosen nothing is fetched; otherwise one list call for `Number` of the picker value |
| AttendancePage.Attendance.constructor | frontend/src/pages/Attendance.jsx:56-70 | the first render: empty lists, employees loading, no filter, the initial draft in create mode |
| AttendancePage.Attendance.LoadEmployees | frontend/src/pages/Attendance.jsx:99-110 | the picker list becomes the answer (or empty), or the error text is set and the list kept; not loading afterwards |
| AttendancePage.Attendance.LoadAttendance | frontend/src/pages/Attendance.jsx:112-129 | with no employee the records become empty and nothing is fetched; otherwise the records become the answer (or empty), or the error is set and the records kept |
| AttendancePage.Attendance.SelectEmployee | frontend/src/pages/Attendance.jsx:263-264 | the picker (locked in edit mode) changes only the draft's employee; a changed employee reloads the list for it, giving what `LoadAttendance` gives: emptied for a blank value, else the answer (or empty), or the error with the list kept, and not loading |
| AttendancePage.Attendance.SetDraftField | frontend/src/pages/Attendance.jsx:292-323 | typing a date or choosing a status changes only those draft fields |
| AttendancePage.Attendance.SetFilterDate | frontend/src/pages/Attendance.jsx:393-398 | the filter changes nothing else, so the counts stay as they were |
| AttendancePage.Attendance.ResetForm | frontend/src/pages/Attendance.jsx:139-149 | keeps the chosen employee, sets the date to today and the status to Present, leaves edit mode, clears the attempt and form error, and leaves the success message |
| AttendancePage.Attendance.OnEdit | frontend/src/pages/Attendance.jsx:151-162 | edit mode for the record with the whole draft replaced by (String(employee), date, status); attempt, form error and success cleared; when the employee changed the list reloads for it and becomes the answer (or empty), or keeps the records and shows the error, and is not loading |
| AttendancePage.Attendance.OnSubmit | frontend/src/pages/Attendance.jsx:164-195 | a draft without employee or date marks the attempt, shows the fix-fields message and calls nothing, keeping draft, mode and list; otherwise the save is sent: success sets the message, resets and reloads the list (its answer or its error), ending not loading; failure shows the error text and keeps draft and mode; never saving afterwards |
| AttendancePage.Attendance.ShowFormError | frontend/src/pages/Attendance.jsx:166-171 | a submit that ends without a save marks the attempt, shows the message and clears success |
| AttendancePage.Attendance.AfterSave | frontend/src/pages/Attendance.jsx:179-189 | after an acknowledged save: the success message, the reset with the employee kept, and the reload for that employee with its outcome (a blank employee empties the list), ending not loading |
| AttendancePage.Attendance.OnDelete | frontend/src/pages/Attendance.jsx:197-205 | a declined confirmation changes nothing; otherwise the delete is sent; a failed delete sets the error and keeps the list; a successful one reloads the list with the reload's outcome stated (emptied for a blank employee, else the answer or the error), ending not loading |
| EmployeesPage.InitialForm | frontend/src/pages/Employees.jsx:11-17 | the initial draft is rejected by the guard in either mode; its date of joining is the load day |
| EmployeesPage.Rejects | frontend/src/pages/Employees.jsx:134-140 | the guard rejects exactly when name, e-mail or department is whitespace only, the date is empty, or, in create mode only, the code is whitespace only |
| EmployeesPage.RejectsIgnoresCodeWhenEditing | frontend/src/pages/Employees.jsx:135 | in edit mode the guard gives the same verdict whatever the code holds |
| EmployeesPage.CanSubmit | frontend/src/pages/Employees.jsx:71-75 | enabled iff trimmed name, e-mail and department are non-empty and a date is given, plus a non-blank code in create mode only; this is exactly when the submit guard passes |
| EmployeesPage.FieldErrors | frontend/src/pages/Employees.jsx:77-86 | no errors before an attempt; after one, all five fields have entries, the code error only in create mode with a blank code, each other error iff its field is blank (the date: empty) |
| EmployeesPage.FieldErrorsMatchGuard | frontend/src/pages/Employees.jsx:134-143 | after an attempt, some field error shows exactly when the guard rejects the draft |
| EmployeesPage.UpdateBody | frontend/src/pages/Employees.jsx:148-153 | the update body has exactly the four updatable keys and no employee code |
| EmployeesPage.CreateBody | frontend/src/pages/Employees.jsx:156-162 | the create body is the update body plus the trimmed code, with exactly the five create keys |
| EmployeesPage.SaveCall | frontend/src/pages/Employees.jsx:147-162 | in edit mode an update of the edited id carrying the update body, without an employee code; in create mode a create carrying the create body, whose code is the trimmed code |
| EmployeesPage.EditDraft | frontend/src/pages/Employees.jsx:115-121 | the edit draft holds the employee's five fields verbatim, untrimmed |
| EmployeesPage.BodyEntries | frontend/src/pages/Employees.jsx:148-161 | each key of the two bodies holds the trimmed field (the date as typed), a trimmed field is non-empty exactly when the field is not blank, and an empty date never parses as a date |
| EmployeesPage.CreateBodyValidation | frontend/src/pages/Employees.jsx:156-162 | a draft the create-mode guard rejects would be refused by the server too; one it lets through is accepted iff the trimmed texts fit their maxima, the trimmed e-mail is an address and the date is real, and the accepted employee is the trimmed draft with the date as sent |
| EmployeesPage.UpdateBodyValidation | frontend/src/pages/Employees.jsx:148-153 | the same for updates: a blank name, e-mail or department or a missing date would be refused by the server; otherwise accepted iff lengths, e-mail and date are valid, giving the trimmed draft |
| EmployeesPage.EditUnchangedRoundTrip | frontend/src/pages/Employees.jsx:113-121 | editing a stored employee (trimmed and valid) and saving it unchanged passes the guard (for a non-zero id) and validates to exactly that employee's fields |
| EmployeesPage.CreateThenEditUnchanged | frontend/src/pages/Employees.jsx:147-162 | an employee created from the form and then saved unchanged from the edit form keeps the fields it was created with |
| EmployeesPage.Employees.constructor | frontend/src/pages/Employees.jsx:57-66 | the first render: no employees, loading, the initial draft in create mode |
| EmployeesPage.Employees.LoadEmployees | frontend/src/pages/Employees.jsx:88-99 | the list becomes the answer (or empty), or the error text is set and the list kept; not loading afterwards |
| EmployeesPage.Employees.EditCode | frontend/src/pages/Employees.jsx:229-231 | the code input (locked in edit mode) changes only the draft's code |
| EmployeesPage.Employees.EditDetails | frontend/src/pages/Employees.jsx:249-305 | the other inputs change only name, e-mail, department and date |
| EmployeesPage.Employees.ResetForm | frontend/src/pages/Employees.jsx:105-111 | restores the initial draft exactly (nothing kept), leaves edit mode, clears the attempt and form error, and leaves the success message |
| EmployeesPage.Employees.OnEdit | frontend/src/pages/Employees.jsx:113-126 | edit mode for the employee with all five fields copied verbatim; attempt, form error and success cleared; nothing fetched |
| EmployeesPage.Employees.OnSubmit | frontend/src/pages/Employees.jsx:128-172 | a rejected draft marks the attempt, shows the fix-fields message and calls nothing, keeping draft, mode and list; otherwise the update or create is sent: success sets the message, resets and reloads the list; failure shows the error text and keeps draft and mode |
| EmployeesPage.Employees.ShowFormError | frontend/src/pages/Employees.jsx:130-142 | a submit that ends without a save marks the attempt, shows the message and clears success |
| EmployeesPage.Employees.AfterSave | frontend/src/pages/Employees.jsx:154-166 | after an acknowledged save: the success message, the reset to the initial draft, and the reload |
| EmployeesPage.Employees.OnDelete | frontend/src/pages/Employees.jsx:174-182 | a declined confirmation changes nothing; a failed delete sets the error and keeps the list; a successful one reloads the list |

## Left out

- The HTTP layer (the shared `api` client and its base URL): services/api.js is not part of this model. A request is modelled as `AttendanceService.Request`, and the pages' calls as `Remote.Call`.
- services/employees.js is not part of this model. The employees page's remote calls stay at the level of `Remote.Call`, with no path or request.
- Async interleaving is not modelled. Each handler runs to completion with its remote outcomes given in advance. The last-response-wins race between overlapping list loads is therefore absent.
- Intermediate loading and saving values: `saving` is true only while a save is awaited. Since handlers run to completion, it is false before and after every handler (`Valid`), and the model never sets it. The loading flags are stated only as they are when a handler ends.
- React effects are not automatic. The constructor is the first render. The mount-time loads are the caller's calls to `LoadEmployees`/`LoadAttendance`. The reload that follows a change of the chosen employee is part of `SelectEmployee` and `OnEdit`.
- Focus moves through `setTimeout(... focus())`, the markup, icons, class strings, `inputClass`, the layout and UI components, the dashboard page and the database module are not modelled.
- The browser's own form checks are not modelled: its refusal to submit through a disabled button, and the `required` and `type="email"` checks of the inputs (Employees.jsx:254, 266, 272, 290, 307). `OnSubmit` may be called with any draft, and its own guard decides.
- `confirm()` is a boolean parameter, and `todayISO()` a parameter (`today`, or `loadDay` for the module-level initial drafts).
- `EmailStr` is the uninterpreted parameter `isEmail`. Its address grammar and its normalisation of the address are left out. The page–schema lemmas assume only that the empty string is not an address.
- EmployeeSchema.ParseDate: accepts only `YYYY-MM-DD` text. The lax forms pydantic also takes for a `date` (numeric timestamps, datetime text with a zero time) are refused in the model. Date objects from the database are left out.
- Js.NumberOfCases: covers blank text and optionally signed decimal digits. Every other spelling that `Number` accepts (hexadecimal, exponents, fractions, `Infinity`) is NaN in the model. Picker values are ids written by `String`, so they are decimal.
- Js.IntToStringDigits: integers are unbounded. The exponent form `String` uses for very large numbers, and precision loss beyond 2^53, are left out.
- Remote.ErrorText: `detail` is taken as text, with "" for a missing value. A non-string `detail` is left out. This matters: FastAPI answers a body its schema refuses with status 422 and `detail` as a list of errors, and the Employees guard lets such bodies through (a 201-character name, since the inputs set no `maxLength`; `EmployeesPage.CreateBodyValidation` states which drafts the server refuses). The `type="email"` input stops most malformed addresses in the browser. Only addresses its grammar accepts but `EmailStr` refuses, such as `a@b`, reach the server. Employees.jsx:168 would then store that list of error objects in `formError`. Rendering `{formError}` at line 318 would make React throw, because objects are not valid children, so the page would fail to render rather than show a message. The model shows a text there instead.
- Json numbers are integers. Floating-point values are left out.
- The server-side handlers, the database and the attendance schema are not part of this model.
