# Employee management: a verified model

This project models the core of a small employee-management web application.

- **Server.** An Express router exposes four handlers over a store of employee
  records: create, list, delete and update.
- **Create form.** A React component fills in a record and posts it as a
  multipart payload.
- **Dashboard.** A React component holds the fetched list. It sorts the list
  newest first, filters it by a search term, classifies delete results, and
  switches between its list, create and update sections.

The files:

- `wrappers.dfy`: `Option` and `Result`.
- `text.dfy`: the JavaScript string operations the core relies on:
  - truthiness of an optional string;
  - ASCII `toLowerCase` and `includes`;
  - the `^[0-9]*$` test;
  - the decimal rendering of a timestamp.
- `sequences.dfy`: subsequences, duplicate-freedom, and removing every
  occurrence of a value.
- `records.dfy`: the employee record shared by the server and the client.
- `employee_routes.dfy`: the four handlers, as methods of a class
  `EmployeeStore` whose `records` map is the collection they change.
- `dashboard.dfy`: the pure parts of the dashboard (the newest-first sort, the
  search filter, the delete-result classification) and a class
  `DashboardState` with the component's state variables and handlers.
- `employee_form.dfy`: the pure parts of the form (field update, course
  toggle, mobile check, payload contents) and a class `FormState` with the
  component's state and handlers. The submit handler's packing loop is a
  method proved equal to the payload function.

Everything from outside the handlers is an explicit parameter:
- the HTTP responses;
- the store's fresh id and creation time;
- the timestamp used for the business code;
- the stored upload's file name;
- `JSON.parse`;
- whether a store operation throws.

The store throwing is the parameter `fault`. It carries the thrown error's
message.

Behaviours of the code that the model keeps as written:

- `courses` sent as an empty list is truthy in JavaScript, so it passes the
  required-field check of create and update. Only a missing value or an empty
  string is rejected.
- In update, a `courses` string that `JSON.parse` rejects gives status 500
  with `Error updating employee`. This happens before the record is looked
  up, so it happens even for an id that does not exist. Only a well-formed
  request for a missing id gets 404.
- The update handler's 404 body carries `message`, not `error`, unlike the
  delete handler's 404.
- When no image is selected, the submit handler still appends `image`. The
  multipart payload then holds the text `null` under that key.
- A delete counts as successful on the client only when the body's message is
  exactly the server's success string. `DeleteAndClassify` sends a delete
  to the delete handler and classifies its answer. It shows that the client
  reports success exactly on status 200.

## Model

| member | source | states |
|---|---|---|
| EmployeeRoutes.NormalizeCourses | server/routes/employee.js:40 | a list of courses is kept as it is; a string is replaced by what `JSON.parse` gives, a failure carrying the parser's error message |
| EmployeeRoutes.BusinessCode | server/routes/employee.js:34 | the business code is `EMP` followed by the timestamp written in decimal: digits only, reading back as the timestamp, with no leading zero |
| EmployeeRoutes.BusinessCodeInjective | server/routes/employee.js:34 | codes made at distinct timestamps are distinct, because the digits read back as the timestamp |
| EmployeeRoutes.ImageUrl | server/routes/employee.js:59 | a URL is given exactly when the stored image name is truthy, and it is the uploads base followed by that name; otherwise null |
| EmployeeRoutes.Published | server/routes/employee.js:57-60 | a listed record keeps every field of the stored one except the image, which becomes its URL |
| EmployeeRoutes.EmployeeStore.Create | server/routes/employee.js:20-48 | missing field → 400 "All fields are required!"; otherwise missing image → 400 "Image is required!"; otherwise a parse failure or a store failure → 400 with that message; in all these cases the store is unchanged; status 200 exactly when all checks pass, and then the new record (business code, six fields, normalised courses, image name) is added under the fresh id and every record stays filed under its own id |
| EmployeeRoutes.EmployeeStore.List | server/routes/employee.js:52-66 | store failure → 400 with its message; otherwise 200 with a list holding every stored record exactly once, each in published form |
| EmployeeRoutes.EmployeeStore.Delete | server/routes/employee.js:70-93 | empty id → 400 "Invalid employee ID"; store failure → 400 with its message; unknown id → 404 "Employee not found"; in all these cases the store is unchanged; a known id → 200 "Employee deleted successfully" and exactly that record removed |
| EmployeeRoutes.EmployeeStore.Update | server/routes/employee.js:97-128 | missing field → 400; a parse or store failure → 500 with "Error updating employee" and the error; unknown id → 404 with message "Employee not found"; in all these cases the store is unchanged; status 200 exactly when all checks pass and the id is stored, and then the six fields are overwritten, the image is replaced only when a file came with the request, every other field is kept, and the updated record is returned |
| EmployeeRoutes.DeleteTwice | server/routes/employee.js:82-88 | deleting a stored id twice gives 200 and then 404, and removes only that record |
| EmployeeRoutes.CreateThenList | server/routes/employee.js:44-62 | after a successful create, the store is the old store plus the new record; the next listing has one record more, contains the new record in published form, and every listed record is a stored record in published form |
| Text.Lower | client/src/components/Dashboard.js:96-99 | lower-casing keeps the length, leaves no upper-case letter, and changes only upper-case letters |
| Text.LowerIdempotent | client/src/components/Dashboard.js:96-99 | lower-casing twice is lower-casing once |
| Text.IncludesMeansOccurs | client/src/components/Dashboard.js:96-99 | `includes` holds exactly when the term occurs as a contiguous slice at some position |
| Text.NatToString | server/routes/employee.js:34 | the decimal rendering of a timestamp is a non-empty run of digits that starts with `0` only for zero |
| Text.NatToStringRoundTrip | server/routes/employee.js:34 | the decimal rendering of a timestamp reads back as the same number |
| Sequences.RemoveAll | client/src/components/EmployeeForm.js:28 | removing a value leaves no occurrence of it, keeps every other value as often as before, and keeps the order |
| Dashboard.InsertNewestFirst | client/src/components/Dashboard.js:35 | inserting into a newest-first list keeps it newest first and adds exactly the one record |
| Dashboard.SortNewestFirst | client/src/components/Dashboard.js:35 | the refreshed list is newest first and a permutation of the server's list |
| Dashboard.InsertKeepsTies | client/src/components/Dashboard.js:35 | inserting a record puts it ahead of every record created at the same time |
| Dashboard.SortIsStable | client/src/components/Dashboard.js:35 | records with equal creation times keep the order the server sent them in |
| Dashboard.FilterBySearch | client/src/components/Dashboard.js:94-101 | the filtered list is a subsequence of the list, holding each matching record as often as the list does and no non-matching record |
| Dashboard.EmptyTermKeepsAll | client/src/components/Dashboard.js:94-101 | an empty search term shows every employee |
| Dashboard.SearchIgnoresCase | client/src/components/Dashboard.js:96-99 | a term and its lower-case form select the same employees |
| Dashboard.SingleMatch | client/src/components/Dashboard.js:94-101 | when exactly one record matches, the filter yields exactly that record |
| Dashboard.NoMatch | client/src/components/Dashboard.js:144-188 | the filtered list is empty (the "No employees found." branch) exactly when no record matches |
| Dashboard.DeleteMessage | client/src/components/Dashboard.js:52-60 | the success message exactly on the exact success string; the failure message exactly on any other answered delete; the error message exactly on a thrown request |
| Dashboard.BodyMessage | client/src/components/Dashboard.js:52 | a body's `message` is read from every body shape that carries one, and is absent only from error-only and list bodies |
| Dashboard.ObserveDelete | client/src/components/Dashboard.js:50-52 | the request throws exactly on a status outside 2xx; otherwise the handler sees the body's `message` |
| Dashboard.DeleteClassificationAgrees | client/src/components/Dashboard.js:50-60 | against the delete handler's responses, the client reports success exactly on status 200, and reports an error on 400 and 404 |
| Dashboard.DeleteAndClassify | client/src/components/Dashboard.js:50-60 | a delete sent to the delete handler is reported as a success exactly when the handler answers 200, which is exactly when the id is non-empty, the store does not fail and the record exists; on success exactly that record is removed; any other outcome shows "Error deleting employee" and leaves the store unchanged |
| Dashboard.DashboardState.NoEmployeesFound | client/src/components/Dashboard.js:140-188 | the list the table shows, whose length is the displayed total, is empty ("No employees found.") exactly when no employee matches the search term |
| Dashboard.DashboardState.AtMostOneSection | client/src/components/Dashboard.js:122-210 | in every valid state at most one page section is rendered |
| Dashboard.DashboardState.constructor | client/src/components/Dashboard.js:10-44 | the dashboard starts on the landing page with the welcome message, an empty search and no selection, and then holds the sorted fetched list or the fetch error |
| Dashboard.DashboardState.FetchEmployees | client/src/components/Dashboard.js:32-40 | a successful fetch replaces the list wholesale with its newest-first sort; a failed one keeps the list and sets "Error fetching employees" |
| Dashboard.DashboardState.HandleDelete | client/src/components/Dashboard.js:47-62 | only the exact success message refreshes the list; every outcome sets the classified message, and a failed refresh overwrites it |
| Dashboard.DashboardState.HandleEdit | client/src/components/Dashboard.js:65-71 | the edited employee is selected, the message is cleared, and only the update section shows |
| Dashboard.DashboardState.HandleNavigationClick | client/src/components/Dashboard.js:74-91 | the welcome message is hidden and the page recorded; "list" and "create" show their section only; any other view hides all three |
| Dashboard.DashboardState.SetSearchTerm | client/src/components/Dashboard.js:138 | the search term becomes the typed value |
| Dashboard.DashboardState.CreateSucceeded | client/src/components/Dashboard.js:197 | after a create, only the list section shows, and the list is refreshed |
| Dashboard.DashboardState.UpdateSucceeded | client/src/components/Dashboard.js:207 | after an update, only the list section shows, and the list is refreshed |
| EmployeeForm.SetField | client/src/components/EmployeeForm.js:31-34 | the named field takes the value and every other field is kept |
| EmployeeForm.ToggleCourse | client/src/components/EmployeeForm.js:23-29 | checking appends the course at the end; unchecking removes every occurrence and keeps the other courses in order |
| EmployeeForm.ToggleKeepsCoursesWellFormed | client/src/components/EmployeeForm.js:166-177 | because each box reports the opposite of its displayed state, toggling keeps the course list duplicate-free and within MCA, BCA and BSC |
| EmployeeForm.MobileError | client/src/components/EmployeeForm.js:38-45 | the mobile error is empty exactly when the value is all digits, and is the fixed error text otherwise |
| EmployeeForm.PackPayload | client/src/components/EmployeeForm.js:64-72 | the packing loop builds exactly the payload the form's contents define |
| EmployeeForm.PayloadTextField | client/src/components/EmployeeForm.js:69-71 | each of the five text fields appears once in the payload, under its own key, with its value |
| EmployeeForm.PayloadCourses | client/src/components/EmployeeForm.js:65-66 | the `courses[]` entries are exactly the selected courses in selection order |
| EmployeeForm.PayloadImage | client/src/components/EmployeeForm.js:67-70 | the image is sent as a file when one is chosen, and otherwise as the text `null` |
| EmployeeForm.PayloadOtherKeys | client/src/components/EmployeeForm.js:64-72 | no key other than the five text fields, `courses[]` and `image` carries any text or file in the payload |
| EmployeeForm.FailureMessage | client/src/components/EmployeeForm.js:91 | a failed submit shows `Error: ` and the server's error, or `Something went wrong.` when there is none |
| EmployeeForm.FormState.constructor | client/src/components/EmployeeForm.js:6-18 | the form starts empty with no messages |
| EmployeeForm.FormState.HandleInputChange | client/src/components/EmployeeForm.js:20-46 | a checkbox toggles its course; another input sets its field; a change to mobile recomputes the mobile error; the course list stays well formed |
| EmployeeForm.FormState.HandleImageChange | client/src/components/EmployeeForm.js:48-58 | a JPEG or PNG file is kept and the image error cleared; anything else clears the image and sets the error |
| EmployeeForm.FormState.HandleSubmit | client/src/components/EmployeeForm.js:60-93 | the payload of the current form is sent; success shows the server's message, resets the form and notifies the dashboard; failure shows the error message and keeps the form |

## Left out

- Rendering (JSX, CSS classes, the network chart, the date formatting of `createdAt`) is not modelled; `Sections` records only which sections render.
- The login gate on mount (reading `username` from local storage and redirecting to the login page) and the `username` state are left out: they are browser storage and routing.
- Asynchrony is not modelled. Each handler runs to completion with its network outcome given. A refresh that races with a later user action is therefore not captured.
- The multer disk storage (destination folder, `Date.now()` plus extension as file name) is replaced by the stored file name passed as a parameter. Files left on disk by rejected requests are not modelled.
- The record store (its schema, id generation, `createdAt` assignment, query semantics) is not part of this model. The fresh id is a parameter that must not be in use, and any store exception is the `fault` parameter.
- `JSON.parse` is a function parameter. Its grammar is not modelled.
- Console logging is left out.
- The `UpdateEmployee` component that the dashboard renders is not part of this model. Only the dashboard's `onUpdate` callback is.
- Text.Lower: lower-cases ASCII letters only; the locale-independent Unicode mapping of `toLowerCase` is not modelled.
- Dashboard.SortNewestFirst: the comparator subtracts two parsed dates. The model compares `createdAt` as integers and sorts stably, as the standard sort is required to. A missing or unparseable date, which makes the comparator yield NaN, is not modelled.
- The mobile field's `maxLength: 10` is a browser input limit, not handler logic, and is not modelled.
- EmployeeForm.FormState.HandleImageChange: the handler spreads the `formData` captured at render rather than the previous state; the model uses the current state, which is the same when no other update is pending.
- EmployeeForm.FormState.HandleInputChange: requires that checkbox events come from the three course boxes and report the opposite of the displayed state, and that other events name one of the five text fields, as the rendered form guarantees.
- EmployeeForm.FormState.HandleSubmit: requires an empty mobile error, because the submit button is disabled otherwise.
- Dashboard.DashboardState.HandleEdit: requires that the list section is showing, because the Update buttons are rendered only there.
- Dashboard.DashboardState.CreateSucceeded, Dashboard.DashboardState.UpdateSucceeded: require that the create or update form is showing. This assumes a submit completes before any other user action.
  - In the application the callback runs only after the request returns, so other events can come first.
  - Example: submit the create form; before the request returns, open the employee list and click a row's Update button.
  - The create callback then shows the list and leaves the update flag set, so two sections render at once.
  - That interleaving breaks "at most one section" (`AtMostOneSection`). The model does not capture it.
