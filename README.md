# attendanceManager core, modelled in Dafny

The model covers two sides of the attendance manager.

The frontend has a small HTTP client page and two attendance panels. The page has a request editor with a method picker, a URL and an ordered header dictionary. Its Send button is disabled while the URL is empty or a request is in flight (`HeaderEditor.SendEnabled`, `ApiHeader.tsx:86`). It also has a body composer that switches between raw JSON text and key/value form fields. A response panel picks a view, colours the status badge and pretty-prints the body. The panels are a trends chart that rolls per-employee counts up into per-department bars, and an employee lookup that reads the backend's reply.

The backend is a FastAPI service. The model covers how a database outcome becomes the reply of the add and update endpoints. It covers how the trends query's per-(employee, status) counts are grouped into one record per employee. It covers how an attendance entry is validated.

Component state that the handlers change in place is a class:
- `HeaderEditor`;
- `BodyComposer`;
- `TrendsPanel`;
- `EmployeeLookup`.

Their fields are the component's state and props, and each handler is a method with a `modifies` frame. Asynchronous handlers are split in two: a method for the synchronous start and a method that takes how the request ended as an input. Loops become methods with invariants, proved against specification functions:
- the department roll-up;
- the backend grouping loop.

Pure logic is functions with lemmas:
- the status colour;
- view selection;
- `formatJson`;
- the validators;
- the error mapping.

JavaScript objects with string keys are ordered dictionaries, `OrderedMaps.OMap`: a sequence of distinct-key entries in insertion order. The spread update `{...m, [k]: v}` is `Put`; `delete` on a copy is `Delete`. JSON is a small datatype with:
- a printer that lays values out as `JSON.stringify(v, null, 2)` does;
- a parser for the same grammar.

The printer and parser are proved to round-trip. String trimming follows the ECMAScript `trim` whitespace set.

Switching between the JSON and form tabs follows the code. The effect at `RequestBody.tsx:70-78` runs whenever the content type changes, so entering form mode overwrites the body with the serialized fields. `BodyComposer.SetContentType` states that behaviour.

## Model

| member | source | states |
|---|---|---|
| ApiHeader.HeaderEditor.constructor | lovable-frontend/src/components/ApiHeader.tsx:24-35 | the editor holds the page's URL, method, headers and loading flag; both pending inputs start empty |
| ApiHeader.HeaderEditor.SetMethod | lovable-frontend/src/components/ApiHeader.tsx:63 | choosing a method changes the method only, and the headers stay a dictionary |
| ApiHeader.HeaderEditor.SetUrl | lovable-frontend/src/components/ApiHeader.tsx:81 | typing in the URL box changes the URL only |
| ApiHeader.HeaderEditor.SetPending | lovable-frontend/src/components/ApiHeader.tsx:125-136 | typing in the new-header inputs changes the pending key and value only |
| ApiHeader.HeaderEditor.AddHeader | lovable-frontend/src/components/ApiHeader.tsx:37-46 | a key that trims to nothing reports "Header key cannot be empty" and leaves the headers and both inputs unchanged; otherwise the untrimmed key is put with the pending value and both inputs become "" |
| ApiHeader.HeaderEditor.RemoveHeader | lovable-frontend/src/components/ApiHeader.tsx:48-52 | the headers become the old ones with that key deleted; nothing else changes |
| ApiHeader.HeaderEditor.EditHeaderValue | lovable-frontend/src/components/ApiHeader.tsx:110 | the row's key is put with the typed value; nothing else changes |
| ApiHeader.AddHeaderEffect | lovable-frontend/src/components/ApiHeader.tsx:43 | after an add the key maps to the value and every other entry is unchanged; an existing key keeps its place and the count does not grow; a new key is appended to the insertion order |
| ApiHeader.RemoveHeaderEffect | lovable-frontend/src/components/ApiHeader.tsx:48-52 | after a remove the key is absent and every other entry keeps its value and place; removing an absent key changes nothing |
| OrderedMaps.Put | lovable-frontend/src/components/ApiHeader.tsx:43 | the spread update adds the key to the key set, keeps the keys distinct, and, read as a map, is the old map with that key set to the value |
| OrderedMaps.PutOrder | lovable-frontend/src/components/ApiHeader.tsx:43 | the spread update overwrites an existing key in place (same size and key order) and appends a new key to the insertion order |
| OrderedMaps.Delete | lovable-frontend/src/components/ApiHeader.tsx:49-50 | `delete` removes exactly that key: one entry fewer when present, unchanged when absent; read as a map, it is the old map without the key |
| OrderedMaps.DeleteOrder | lovable-frontend/src/components/RequestBody.tsx:63-67 | `delete` cuts out the key's own entry, and the other entries keep their order |
| OrderedMaps.Get | lovable-frontend/src/components/EmployeeAttendance.tsx:42-48 | a lookup finds a value exactly when the key is present, and it is the key's value in the map reading |
| JsText.Trim | lovable-frontend/src/components/ApiHeader.tsx:38 | `trim()` yields the empty string exactly when every character is JavaScript whitespace, and otherwise neither end is whitespace |
| RequestBody.FormObject | lovable-frontend/src/components/RequestBody.tsx:73 | the form fields become an object with the same keys in the same order, each value a JSON string |
| RequestBody.FormBodyParsesBack | lovable-frontend/src/components/RequestBody.tsx:70-78 | the body written in form mode is valid JSON and parses back to exactly the fields, in order |
| RequestBody.BodyComposer.constructor | lovable-frontend/src/components/RequestBody.tsx:21-38 | on mount the effect runs once: in form mode, for a body-carrying method, the body is the serialized fields; the error slot and pending inputs start empty |
| RequestBody.BodyComposer.HandleBodyChange | lovable-frontend/src/components/RequestBody.tsx:40-54 | the text is stored verbatim; in JSON mode the error is cleared exactly when the text is blank or parses, and otherwise holds the parser's message; in form mode the error is untouched; for a method without a body nothing happens |
| RequestBody.BodyComposer.SetPending | lovable-frontend/src/components/RequestBody.tsx:132-144 | typing in the new-field inputs changes the pending key and value only |
| RequestBody.BodyComposer.AddFormField | lovable-frontend/src/components/RequestBody.tsx:56-61 | a blank key is a silent no-op; otherwise the typed key is put with the pending value, both inputs are cleared, and in form mode the body becomes the new fields serialized |
| RequestBody.BodyComposer.RemoveFormField | lovable-frontend/src/components/RequestBody.tsx:63-67 | only that key is deleted, and in form mode the body follows the fields |
| RequestBody.BodyComposer.EditFormFieldValue | lovable-frontend/src/components/RequestBody.tsx:119 | the field's key is put with the typed value, and in form mode the body follows the fields |
| RequestBody.BodyComposer.SetContentType | lovable-frontend/src/components/RequestBody.tsx:70-78 | choosing the other tab switches the mode, and entering form mode overwrites the body with the serialized fields; going back to JSON keeps the body and the fields; choosing the current tab changes nothing |
| RequestBody.BodyComposer.RunEffect | lovable-frontend/src/components/RequestBody.tsx:70-78 | in form mode the body becomes the serialized fields; in JSON mode the body is kept |
| ResponseViewer.StatusColor | lovable-frontend/src/components/ResponseViewer.tsx:54-60 | green exactly for [200,300), blue for [300,400), yellow for [400,500), red for every status from 500 up, gray below 200; one colour per status |
| ResponseViewer.SelectView | lovable-frontend/src/components/ResponseViewer.tsx:20-52 | the placeholder exactly when there is no response and no error text; the error view exactly when the error is a non-empty string, even with a response; a response view carries the status's colour |
| ResponseViewer.FormatJsonParsesBack | lovable-frontend/src/components/ResponseViewer.tsx:62-78 | a non-string body is shown as text that parses back to it; a string that parses is shown re-printed as the same value; a string that does not parse is shown as it is |
| ResponseViewer.FormatJsonIdempotent | lovable-frontend/src/components/ResponseViewer.tsx:62-73 | formatting the shown text of a string body again leaves it unchanged |
| JsonRoundTrip.StringifyThenParse | lovable-frontend/src/components/ResponseViewer.tsx:74 | two-space printing of a well-formed value never fails, and parsing the text gives the value back |
| JsonRoundTrip.ParseWellFormed | lovable-frontend/src/components/ResponseViewer.tsx:67 | whatever the parser accepts is a well-formed value, with no object holding a key twice |
| AttendanceTrends.RollUp | lovable-frontend/src/components/AttendanceTrends.tsx:36-63 | the rows are one per charted department (a department some entry names that is not an inherited `Object.prototype` member), in first-seen order, each holding its department's totals, and for each status the rows add up to the total over the charted entries |
| AttendanceTrends.Tally | lovable-frontend/src/components/AttendanceTrends.tsx:41-60 | one charted entry opens its department's row when there is none and adds its counts, so the table is still the roll-up of the entries so far, one more |
| AttendanceTrends.TotalsStep | lovable-frontend/src/components/AttendanceTrends.tsx:40-61 | one more entry keeps the departments' totals of a status equal to the entries' total of it |
| AttendanceTrends.AddCounts | lovable-frontend/src/components/AttendanceTrends.tsx:52-60 | each status column grows by the entry's count, a missing status counting as 0; the name is kept |
| AttendanceTrends.ExpectedRows | lovable-frontend/src/components/AttendanceTrends.tsx:40-63 | one row per department of the given entries, in order of first appearance, each holding that department's totals; `RollUp` applies it to the charted entries |
| AttendanceTrends.ChartedDepartments | lovable-frontend/src/components/AttendanceTrends.tsx:42-49 | a department gets a row exactly when some entry names it and its name is not one of the members every object inherits from `Object.prototype` (`constructor`, `toString`, `__proto__`, …), whose lookup is never falsy |
| AttendanceTrends.ChartedAll | lovable-frontend/src/components/AttendanceTrends.tsx:42 | when no department is named like an inherited member, every entry is charted, in order |
| AttendanceTrends.ZeroRow | lovable-frontend/src/components/AttendanceTrends.tsx:43-48 | a department's row starts with its name and zero Present, Absent and WFH |
| AttendanceTrends.DepartmentsDistinct | lovable-frontend/src/components/AttendanceTrends.tsx:40-49 | no department gets two rows |
| AttendanceTrends.DepartmentsCover | lovable-frontend/src/components/AttendanceTrends.tsx:40-49 | a department has a row exactly when some entry belongs to it |
| AttendanceTrends.TotalsConserved | lovable-frontend/src/components/AttendanceTrends.tsx:40-61 | the departments' totals of a status add up to the entries' total of that status |
| AttendanceTrends.Conservation | lovable-frontend/src/components/AttendanceTrends.tsx:40-61 | for each status, the rows of a list of entries add up to the total over those entries |
| AttendanceTrends.TrendsPanel.constructor | lovable-frontend/src/components/AttendanceTrends.tsx:21-22 | the panel starts loading, with no rows |
| AttendanceTrends.TrendsPanel.StartFetch | lovable-frontend/src/components/AttendanceTrends.tsx:26 | a fetch raises the loading flag and keeps the rows |
| AttendanceTrends.TrendsPanel.ResolveFetch | lovable-frontend/src/components/AttendanceTrends.tsx:24-70 | loading always ends; a body with trend records replaces the rows by their roll-up; a body without them keeps the rows; a non-ok response keeps the rows and reports "Failed to fetch attendance trends"; a thrown error keeps the rows and reports its message |
| EmployeeAttendance.AttendanceReply | backend-api/main.py:90-96 | the reply is a one-member object, and its member is `message` exactly when there are no records |
| EmployeeAttendance.Property | lovable-frontend/src/components/EmployeeAttendance.tsx:42 | reading a property finds a value exactly when the body is an object holding that key |
| EmployeeAttendance.Classify | lovable-frontend/src/components/EmployeeAttendance.tsx:42-52 | a null body fails; the exact "no attendance" message is the no-records case; otherwise an `attendance` array is the records; anything else is a bad format |
| EmployeeAttendance.ReplyClassified | lovable-frontend/src/components/EmployeeAttendance.tsx:42-49 | the lookup reads the backend's reply as intended: no records for the message, exactly the records otherwise |
| EmployeeAttendance.EmployeeLookup.constructor | lovable-frontend/src/components/EmployeeAttendance.tsx:24-27 | empty id, not loading, no records, no message |
| EmployeeAttendance.EmployeeLookup.SetEmployeeId | lovable-frontend/src/components/EmployeeAttendance.tsx:72 | typing changes the id only |
| EmployeeAttendance.EmployeeLookup.StartFetch | lovable-frontend/src/components/EmployeeAttendance.tsx:29-37 | an id that trims to nothing reports "Please enter an employee ID", sends nothing and changes nothing; otherwise loading starts and the no-records message is cleared |
| EmployeeAttendance.EmployeeLookup.ResolveFetch | lovable-frontend/src/components/EmployeeAttendance.tsx:38-58 | loading always ends; records are kept; the no-records reply clears the records and sets the message; a null body, a bad format or a thrown error clears the records and reports an error |
| EmployeeAttendance.EmployeeLookup.Shown | lovable-frontend/src/components/EmployeeAttendance.tsx:86-126 | loading first, then a non-empty no-records message, then a non-empty table of exactly the held records, otherwise nothing |
| EmployeeAttendance.Search | lovable-frontend/src/components/EmployeeAttendance.tsx:29-58 | a search answered by the backend shows the no-records card when the employee has none, and otherwise a table of exactly the backend's records, with no error |
| AttendanceService.AddAttendance | backend-api/app/services/attendance_service.py:39-51 | an insert that ran gives "Attendance added successfully"; an integrity violation gives 409; any other failure gives 500 with the error's text |
| AttendanceService.UpdateAttendance | backend-api/app/services/attendance_service.py:68-89 | zero rows affected gives 404 "Attendance record not found", never a 500; other updates that ran succeed; an integrity violation gives 409; any other failure gives 500 with the error's text |
| AttendanceService.GroupTrends | backend-api/app/services/attendance_service.py:112-123 | one entry per distinct employee id, each holding the employee's first department and the counts its records set; no records give an empty map |
| AttendanceService.GroupStep | backend-api/app/services/attendance_service.py:113-121 | one more record adds its employee, fixes the department only of a new employee, and sets only its own (employee, status) count |
| AttendanceService.NoRecordsNoCounts | backend-api/app/services/attendance_service.py:119-121 | an employee without records has no counts |
| AttendanceService.FirstDepartmentIsFirst | backend-api/app/services/attendance_service.py:119-120 | the department kept is that of the employee's first record |
| AttendanceService.AttendanceStatuses | backend-api/app/services/attendance_service.py:121 | an employee has a count for exactly the statuses among its records |
| AttendanceService.LastCountWins | backend-api/app/services/attendance_service.py:121 | the count kept for an (employee, status) pair is that of the pair's last record |
| Models.DaysInMonth | backend-api/app/models.py:19-22 | a month has 28 to 31 days: 28 exactly for February of a common year, 29 exactly for February of a Gregorian leap year, 30 exactly for April, June, September and November, and 31 exactly for the other seven months |
| Models.ValidateDate | backend-api/app/models.py:13-23 | a valid date is returned unchanged; a date not matching the pattern is rejected with the format message; a date that matches but names no calendar day is rejected with "Invalid date" |
| Models.FormatThenValidate | backend-api/app/models.py:19-23 | every calendar date from year 1 to 9999, written `YYYY-MM-DD`, is accepted |
| Models.ValidateThenFormat | backend-api/app/models.py:16-23 | every accepted date is ten characters and is the `YYYY-MM-DD` writing of a calendar date |
| Models.DateExamples | backend-api/app/models.py:16-22 | leap and non-leap February 29, day 31 of April, months 00 and 13, year 0000, a trailing newline and badly shaped dates are decided as the validator does |
| Models.ValidateStatus | backend-api/app/models.py:25-31 | a status is accepted exactly when it is "Present", "Absent" or "WFH", unchanged; otherwise it is rejected with the list of allowed statuses |
| Models.ValidateEntry | backend-api/app/models.py:7-31 | an entry is accepted, unchanged, exactly when its id is positive, its date and status pass and its department is 1 to 50 characters long; otherwise every failing field is reported |
| Models.ErrorsPerField | backend-api/app/models.py:8-31 | each field's error is reported exactly when that field's constraint fails, with that validator's message |
| Models.ErrorsInFieldOrder | backend-api/app/models.py:7-11 | the errors come in field declaration order |

## Left out

- The request dispatcher that sends the request and measures its time is not part of this model. A response, an error text or how a fetch ended is an input.
- Network, clock and toasts: fetches are inputs, and a toast is a method's `Option<string>` result.
- React rendering, styling and scroll areas are not modelled beyond the view each component chooses.
- SQL and the database are not modelled. A statement's outcome (`DbOutcome`) and the trends query's result rows (`CountRecord`) are inputs.
- The tenacity retry decorator is left out. It retries only on connection errors, and every path of the three services turns errors into an HTTP error first, so it never fires.
- The 500 reply of `get_attendance_trends` when the query itself fails is left out.
- `get_employee_attendance` is a bare query and is not modelled. Its result is the `records` input of `EmployeeAttendance.AttendanceReply`.
- AttendanceService.GroupTrends returns a Dafny `map`, so the insertion order of the backend dictionary is not modelled. The frontend roll-up takes the trend records as a sequence in any order.
- JavaScript's `Object.values` lists integer-like keys in ascending order. The model does not reorder them, so a department's row position assumes the records arrive in that order.
- JSON numbers are integers only: fractions and exponents are not parsed, and `\u` escapes that form surrogate pairs are refused.
- Parser error texts are the model parser's own strings, not the engine's messages. Only their presence matters.
- Object keys named `__proto__` are treated as ordinary keys by the JSON parser, the header editor and the form fields.
- AttendanceTrends.RollUp: an entry whose department is an inherited `Object.prototype` member is skipped, since its lookup is truthy and no row is created; the counts the source then adds onto that inherited member (turning it into `NaN` on the shared prototype) are not modelled.
- OrderedMaps.PutOrder: JavaScript lists integer-like keys ("1", "42") first, in ascending order, in `Object.entries` and in `JSON.stringify`; the model keeps plain insertion order for every key.
- ApiHeader.AddHeaderEffect: a header named like an integer is listed first by `Object.entries` (`ApiHeader.tsx:101`) in JavaScript; the model places it by insertion order.
- RequestBody.FormObject: a form field named like an integer comes first in `Object.entries` (`RequestBody.tsx:110`) and in the serialized body (`RequestBody.tsx:73`) in JavaScript; the model keeps insertion order, so `RequestBody.FormBodyParsesBack` holds for fields without integer-like keys.
- ResponseViewer.FormatJson: JSON numbers are exact unbounded integers, whereas JavaScript turns them into doubles: above 2^53 digits are lost, and from 1e21 up they are printed in exponent form.
- The TypeError message `EmployeeAttendance.NullBodyMessage` is the V8 engine's wording.
- ResponseViewer.FormatJson has no `String(data)` fallback: printing a JSON value cannot fail, so that branch is unreachable.
- RequestBody.BodyComposer: the method is fixed for a composer's lifetime. The component returns before its effect hook for a method without a body, so the number of hooks changes between renders when the method changes; that case is not modelled.
- ApiHeader.HttpMethod is an enumeration. The picker offers only these five values, so a method outside them cannot arise.
- Python's `\d` also matches non-ASCII digits; the model accepts ASCII digits only.
- The pydantic error texts for the id and department constraints are not modelled, only which field failed (`Models.FieldError`).
- The ids of the entries are unbounded integers; the database column width is not modelled.
