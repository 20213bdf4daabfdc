# HR leave and work-from-home requests, modelled in Dafny

The system is an HR web application. Employees file leave requests of four
kinds: work from home (WFH), vacation, late permission and early leave.
Admins approve or reject them. Team leads and admins see a weekly grid of who
works from home, and HR gets a list of approved requests. An admin can also
file requests directly, or have the system draw random WFH days for a set of
employees.

Next to the requests it keeps three other things:

- user accounts;
- X-ray reports with per-user statistics;
- an upload check for X-ray images.

The browser side has three forms: add employee, employee list, and
work-from-home request.

The model covers these parts:

- The Mongoose schemas for requests, users and reports. Each is a datatype
  and a validity predicate. Requests and reports have a cast function
  (defaults, trimming, enum and range checks). Users have the `trim`
  setters (`UserModel.TrimPaths`), which every create and save applies.
- Each collection is a class that holds a `seq` of records and an id
  counter (`RequestStore`, `UserStore`, `ReportStore`). Each store method
  keeps the collection invariant: every stored record passed the schema,
  ids increase in store order, and user codes are unique.
- The request, report and user controllers. They are methods on those
  stores, or functions where the handler only reads. Every status code and
  message of the handlers is kept.
- `validateImage`, and the pure helpers of the three React forms.

Some inputs are parameters:

- Dates are integer day numbers, with day 0 a Thursday.
- "Today" is a parameter.
- The authenticated caller (token identity and roles) is a `Caller` value.
- Password hashes are parameters.
- `Math.random` is a nondeterministic choice.

`createdAt` order is id order, because ids come from a counter that only
grows. A database sort becomes a stable insertion sort that is proved to be
a sorted permutation.

Three behaviours of the source worth knowing:

- Asked for 7 random days, `generateRandomWFH` silently stops at 6, because
  Friday is never drawn. `RandomWfh.PickDays` states the cap, and
  `RandomWfh.TurnsOwners` carries it to each employee of a run.
- `createAdminRequest` checks no role. The model checks none either.
- A later request overwrites an earlier one in the weekly grid. The
  requests are processed in `employeeName` order.

## Model

| member | source | states |
|---|---|---|
| RequestModel.ParseType | backend/models/Request.js:19-23 | a request type is accepted exactly when it is one of WFH, VACATION, LATE_PERMISSION, EARLY_LEAVE, and the parsed value prints back as the input |
| RequestModel.ParseStatus | backend/models/Request.js:49-54 | a status is accepted exactly when it is Pending, Approved or Rejected |
| RequestModel.ParseSource | backend/models/Request.js:55-60 | a source is accepted exactly when it is EMPLOYEE_REQUEST or ADMIN_DIRECT |
| RequestModel.EnumNamesRoundTrip | backend/models/Request.js:19-60 | printing any type, status or source and parsing it again gives the same value |
| RequestModel.CastRequestAccepts | backend/models/Request.js:5-60 | the schema accepts a document exactly when employeeId, a non-blank employeeName, an allowed type, both dates and numberOfDays ≥ 1 are present, and status and source are absent or allowed |
| RequestModel.CastRequestValid | backend/models/Request.js:10-40 | a stored request has a non-empty trimmed name, a trimmed code and at least one day, and the id it was given |
| RequestModel.CastRequestDefaults | backend/models/Request.js:32-60 | absent paths take their defaults: status Pending, source EMPLOYEE_REQUEST, selectedDates empty, reason and notes ""; given paths are kept |
| RequestModel.RequestStore.Create | backend/models/Request.js:5-60 | a document is stored, under the next id, exactly when the schema accepts it; otherwise the collection is unchanged |
| RequestModel.RequestStore.SetStatus | backend/controllers/requests.js:363-364 | only the status of the one request changes |
| RequestModel.RequestStore.DeleteWhere | backend/controllers/requests.js:596 | the collection keeps exactly the requests the predicate keeps, in order, and the count returned is the number removed |
| RequestModel.StoredRequestsFilter | backend/controllers/requests.js:596 | removing any subset of requests keeps the collection invariant |
| RequestModel.IndexOfId | backend/controllers/requests.js:358-361 | finds the request with the id, or reports that none has it |
| UserModel.ParseTitle | backend/models/User.js:97-108 | a title is accepted exactly when, trimmed, it is one of the six titles |
| UserModel.NewUserDefaults | backend/models/User.js:13-96 | a new account has roles ["user"] unless given, active true, platformUsageCount 0, the main branch, phone "123" unless given, no codes, and it is valid exactly when username and password are non-empty |
| UserModel.TrimPaths | backend/models/User.js:63-96 | the setters leave fullName, fullNameArabic, employeeCode, fingerprintCode, jobPosition and branch trimmed |
| UserModel.TrimPathsFrame | backend/models/User.js:63-96 | the setters change no other path |
| UserModel.TrimPathsOfTrimmed | backend/models/User.js:63-96 | an account whose paths are already trimmed is left as it is |
| UserModel.TrimPathsIdempotent | backend/models/User.js:63-96 | applying the setters twice is applying them once |
| UserModel.TrimmedValidators | backend/models/User.js:63-81 | after trimming, an account is valid exactly when it has a username and a password and, when its employee code is not blank, a full name that is not blank |
| UserModel.PaddedCodesClash | backend/models/User.js:76-81 | the codes "E1" and "E1 " are one code for the unique index |
| UserModel.UserStore.Create | backend/models/User.js:63-87 | the account is trimmed, then stored exactly when it is valid (a non-blank full name when the employee code is not blank) and its codes clash with no other account |
| UserModel.UserStore.Save | backend/models/User.js:63-87 | the edited account is trimmed; the save succeeds exactly when it is valid and the codes stay unique; a failed save changes nothing |
| UserModel.UserStore.Remove | backend/controllers/users.js:280 | removes exactly the one account and keeps the invariant |
| UserModel.UniqueCodesSameCodes | backend/models/User.js:76-87 | an edit that keeps an account's codes keeps the sparse unique indexes |
| UserModel.FindById | backend/controllers/users.js:274-278 | finds an account with the id exactly when one exists |
| UserModel.FindByEmail | backend/controllers/requests.js:62-65 | finds an account with the e-mail exactly when one exists |
| UserModel.FindByUsername | backend/controllers/users.js:47-50 | finds an account whose username matches exactly or case-insensitively, depending on the collation, exactly when one exists |
| UserModel.IndexOfUsername | backend/controllers/users.js:210-213 | returns the first account with the username, or reports that none has it |
| ReportModel.ParseGender | backend/models/Report.js:17-21 | accepts exactly male and female |
| ReportModel.ParseScanType | backend/models/Report.js:22-26 | accepts exactly xray, ct, mri and ecg |
| ReportModel.ParseReportStatus | backend/models/Report.js:41-45 | accepts exactly normal, abnormal and critical |
| ReportModel.ParseRiskLevel | backend/models/Report.js:46-50 | accepts exactly Low, Moderate and High |
| ReportModel.CastReportSpec | backend/models/Report.js:3-67 | the schema accepts a report exactly when the required paths are present, the enums hold and 0 ≤ confidence ≤ 100; clinicalNotes defaults to "" and recommendations to empty |
| ReportModel.ReportStore.Create | backend/models/Report.js:3-67 | a report is stored under the next id exactly when the schema accepts it |
| ReportModel.ReportStore.Remove | backend/controllers/reports.js:214-217 | removes exactly the one report and keeps the invariant |
| ReportModel.IndexOfOwned | backend/controllers/reports.js:190-193 | finds a report with that id and that owner, or reports that none exists |
| RequestRules.HRCategory | backend/controllers/requests.js:6-14 | the label is "غير محدد" exactly when the type is not one of the four |
| RequestRules.HRCategoryOfStored | backend/controllers/requests.js:6-14 | every stored type has its own label, and different types have different labels |
| RequestRules.TeamMemberTitles | backend/controllers/requests.js:17-23 | only the two lead titles map to a team: Frontend Lead to {Frontend Lead, Frontend Developer, UI/UX}, Backend Lead to {Backend Lead, Backend Developer, RA} |
| RequestRules.TeamsDisjoint | backend/controllers/requests.js:17-23 | a lead belongs to its own team, and no title is on both teams |
| RequestRules.WeekStart | backend/controllers/requests.js:211-220 | the window starts on a Sunday and today lies within its seven days |
| RequestRules.WeekStartUnique | backend/controllers/requests.js:211-220 | that Sunday is the only one whose week holds today |
| RequestRules.WeekdayOfOffset | backend/controllers/requests.js:481-504 | the day i after a Sunday is weekday i |
| RequestHandlers.AdminGuard | backend/controllers/requests.js:144-153 | a caller passes exactly when the token names someone who has the admin role; otherwise 400 without a token and 403 without the role |
| RequestHandlers.PlanRequestValidatesFirst | backend/controllers/requests.js:46-59 | a missing field or an unknown type is refused with 400 before any lookup, the same way whoever calls and whatever is stored |
| RequestHandlers.CallerAccount | backend/controllers/requests.js:62 | the account found is the one with the token's email, and an absent identity finds none |
| RequestHandlers.PlanRequestLookup | backend/controllers/requests.js:62-65 | after validation, the request is refused exactly when the token carries no email or no account has it, and then with 404 |
| RequestHandlers.PlanRequestFields | backend/controllers/requests.js:68-109 | the owner is the employeeId's account when it resolves and the caller otherwise; source defaults to EMPLOYEE_REQUEST; status is Approved exactly for ADMIN_DIRECT or a WFH sent as Approved, else Pending; reason is reason, else notes, else "" |
| RequestHandlers.CreateRequest | backend/controllers/requests.js:28-135 | a refusal changes nothing; otherwise the planned document is stored exactly when the schema accepts it, with 500 when it does not |
| RequestHandlers.CreatedRequestStatus | backend/controllers/requests.js:68-93 | a stored new request is Approved exactly in the two approved cases and Pending otherwise, and is ADMIN_DIRECT exactly when the body says so |
| RequestHandlers.GetAllRequests | backend/controllers/requests.js:140-167 | only admins are answered, and only with employee-submitted requests |
| RequestHandlers.ReverseNewestFirst | backend/controllers/requests.js:159 | reversing creation order lists the newest first |
| RequestHandlers.GetAllRequestsSpec | backend/controllers/requests.js:157-166 | an admin gets exactly the EMPLOYEE_REQUEST requests, newest first, and an empty list when there are none |
| RequestHandlers.PageLimit | backend/controllers/requests.js:174 | 10 for a missing, unparsable or zero limit; a positive limit as given; a negative one by its absolute value, as MongoDB reads it |
| RequestHandlers.GetMyRequests | backend/controllers/requests.js:172-193 | 400 without a token, 404 for an unknown account, and a page exactly when the account exists, never longer than the limit |
| RequestHandlers.OwnPage | backend/controllers/requests.js:186-190 | a page of one account's requests read newest first holds only that account's stored requests, the i-th newest at index i, with strictly decreasing ids |
| RequestHandlers.GetMyRequestsSpec | backend/controllers/requests.js:186-190 | the page is the first PageLimit of the caller's requests read newest first: only the caller's own, the i-th being the i-th newest, as many as the limit allows |
| RequestHandlers.HRRowOfSpec | backend/controllers/requests.js:310-327 | each HR line carries one of the four labels, is a mission exactly for WFH, writes the day count in decimal and always has a name, falling back to the request's own name when the account is gone |
| RequestHandlers.StartsLaterIsTotalPreorder | backend/controllers/requests.js:296 | "starts later" is a total preorder, so sorting by it is well defined |
| RequestHandlers.GetApprovedRequests | backend/controllers/requests.js:275-330 | only admins are answered, with one line per approved request |
| RequestHandlers.GetApprovedRequestsSpec | backend/controllers/requests.js:291-327 | the lines are those of a permutation of the approved requests, in non-increasing start date |
| RequestHandlers.UpdateRequestStatus | backend/controllers/requests.js:335-370 | checks in order: 400 or 403 from the guard, 400 for a status outside the three, 404 for an unknown id; otherwise only that request's status changes, whatever it was |
| RequestHandlers.DeleteRequest | backend/controllers/requests.js:375-403 | after the guard, 404 for an unknown id; otherwise exactly that request is removed |
| RequestHandlers.OnlyOneWithId | backend/controllers/requests.js:392-397 | ids are unique, so removing by id removes one request |
| RequestHandlers.DeleteAllRequests | backend/controllers/requests.js:580-602 | after the guard, exactly the Approved requests go, the others stay in order, and the count returned is the number of Approved ones |
| RequestHandlers.DeleteAllKeeps | backend/controllers/requests.js:596 | a request survives exactly when it was there and is not Approved |
| RequestHandlers.CreateAdminRequest | backend/controllers/requests.js:751-813 | 400 for a missing field and 404 for an unknown employee; otherwise the document is stored exactly when the schema accepts it |
| RequestHandlers.AdminRequestSpec | backend/controllers/requests.js:769-785 | an admin-created request is stored exactly when its type is allowed, it has at least one day and the employee has a name; it is always Approved, ADMIN_DIRECT and for that employee |
| WeekSchedule.Span | backend/controllers/requests.js:252-265 | the days from start to end, one after the other |
| WeekSchedule.GetWeekSchedule | backend/controllers/requests.js:198-270 | 400 without a token and 404 for an unknown account; otherwise the loop yields exactly the schedule function of the caller's requests for the current week |
| WeekSchedule.SpanEntries | backend/controllers/requests.js:252-265 | the day-by-day loop emits the days of the range that fall in the week, in order |
| WeekSchedule.SelectedEntries | backend/controllers/requests.js:239-250 | the selected dates that fall in the week, in order |
| WeekSchedule.DaysOfMember | backend/controllers/requests.js:237-267 | a day is listed for a request exactly when it is in the week and is one of its selected dates, or between start and end when none are selected |
| WeekSchedule.ScheduleOfMember | backend/controllers/requests.js:223-267 | an entry is listed exactly when one of the caller's Approved WFH or vacation requests that overlaps the week lists its day with its type |
| WeekSchedule.ScheduleInWeek | backend/controllers/requests.js:211-267 | every entry lies between this week's Sunday and Saturday and is WFH or vacation |
| WeeklyWfh.ByNameIsTotalPreorder | backend/controllers/requests.js:477 | ordering by employee name is a total preorder |
| WeeklyWfh.GetWeeklyWFH | backend/controllers/requests.js:409-575 | 400 without a token, 404 for an unknown account, 403 for a caller who is neither admin nor lead; otherwise the view of the grid built from the team's approved requests for the week, sorted by name |
| WeeklyWfh.BuildGrid | backend/controllers/requests.js:507-543 | the forEach over the requests builds the grid function of those requests |
| WeeklyWfh.AddRequest | backend/controllers/requests.js:508-542 | one step adds the request's row when it is new and marks its days |
| WeeklyWfh.MarkWeek | backend/controllers/requests.js:531-542 | marks exactly the week days the request covers, leaving the others |
| WeeklyWfh.BuildWeekDays | backend/controllers/requests.js:481-504 | builds the seven week days from Sunday |
| WeeklyWfh.WeekDaysSpec | backend/controllers/requests.js:481-504 | there are seven days, day i is weekday i with its name, and today lies between the first and the last |
| WeeklyWfh.ApplyFacts | backend/controllers/requests.js:508-542 | one request adds its own row and overwrites exactly the covered days of that row; everything else stays |
| WeeklyWfh.GridKeys | backend/controllers/requests.js:509-522 | the grid has a row for a key `name_code` exactly when some selected request carries that key |
| WeeklyWfh.GridSlot | backend/controllers/requests.js:531-542 | each cell holds the last request of that row covering that day (last write wins), and nothing when no request covers it |
| WeeklyWfh.LastCoverComplete | backend/controllers/requests.js:531-542 | an empty cell means that no request of that row covers the day |
| WeeklyWfh.GridQuerySpec | backend/controllers/requests.js:456-478 | a request is selected exactly when it is Approved, overlaps the week and belongs to an existing account with an employee code that is on the caller's team (any such account for an admin); a lead sees only titles of their team; the selection is sorted by name |
| WeeklyWfh.ViewSpec | backend/controllers/requests.js:546-557 | every employee of the view has seven days in order, and a day is WFH exactly when some request of that employee covers it |
| WeeklyWfh.Employees | backend/controllers/requests.js:546-557 | one employee entry per grid row |
| RandomWfh.PickDays | backend/controllers/requests.js:684-698 | draws min(N, 6) distinct day indices, none of them Friday, for any draw |
| RandomWfh.SortedPicks | backend/controllers/requests.js:701 | sorting the picks keeps the same days in strictly ascending order |
| RandomWfh.WorkDayInWeek | backend/controllers/requests.js:663-668 | a drawn index names a day of the current week that is not a Friday |
| RandomWfh.RandomDocFields | backend/controllers/requests.js:704-731 | a generated request is stored exactly when the employee has a name; it is a one-day WFH, Approved, ADMIN_DIRECT, for that employee and day |
| RandomWfh.AssignDay | backend/controllers/requests.js:704-731 | one draw stores one such request, or nothing when the schema refuses it |
| RandomWfh.AssignDays | backend/controllers/requests.js:703-737 | one request per drawn day, in order, each reported; the turn fails exactly when there are days and the employee's name is blank, and then nothing is stored; otherwise every day is stored |
| RandomWfh.AssignEmployee | backend/controllers/requests.js:676-737 | an unknown employee gives the not-found line and stores nothing; a blank name gives the creation-failure line and stores nothing; otherwise exactly min(N, 6) requests for that employee, on strictly ascending days, and no error |
| RandomWfh.ErrorsOf | backend/controllers/requests.js:678-681 | a run adds at most one error line per selected id |
| RandomWfh.ErrorsOfNotFound | backend/controllers/requests.js:678-681 | every selected id without an account is reported as not found, and the run goes on with the next id |
| RandomWfh.TurnsAssigned | backend/controllers/requests.js:674-738 | every request of a run is a one-day approved WFH of the current week, not on a Friday, for a selected id whose account exists |
| RandomWfh.TurnsOwners | backend/controllers/requests.js:674-738 | a selected employee with an account and a name gets min(N, 6) requests per occurrence in the selection, any other id none |
| RandomWfh.AssignAll | backend/controllers/requests.js:674-738 | one turn per selected id, in selection order, going on past unknown ids and failed turns: the new requests are the turns' quotas in order, each reported, and the errors are exactly the turns' lines |
| RandomWfh.GenerateRandomWFH | backend/controllers/requests.js:607-746 | the guard, then 400 for no employees and for N outside 1..7, storing nothing; otherwise only new requests are appended, each reported, made turn by turn in selection order with each employee's quota of requests, and the errors are exactly the not-found and creation-failure lines of those turns, in order |
| Reports.CountUse | backend/controllers/reports.js:129-130 | the account gets exactly one more use, the save succeeds and no other account changes |
| Reports.CreateReport | backend/controllers/reports.js:89-153 | 400 when a required field is missing and 404 for an unknown account, both changing nothing; otherwise the account's usage count rises by exactly 1, then the report is stored for that account exactly when the schema accepts it, as the schema casts the body, with 500 when it does not |
| Reports.GetUserReports | backend/controllers/reports.js:158-174 | 404 exactly when the account is unknown |
| Reports.GetUserReportsSpec | backend/controllers/reports.js:168-171 | exactly the caller's reports, newest first |
| Reports.GetReport | backend/controllers/reports.js:179-198 | a report is returned exactly when one with that id belongs to the caller; anything else is 404 |
| Reports.DeleteReport | backend/controllers/reports.js:203-223 | deletes exactly when a report with that id belongs to the caller, and then removes that one only; anything else is 404 and changes nothing |
| Reports.GetUserStats | backend/controllers/reports.js:228-272 | 404 exactly when the account is unknown |
| Reports.PatientKeysBound | backend/controllers/reports.js:249-251 | there are no more distinct patients than reports, and at least one when there are reports |
| Reports.StatusCountsSum | backend/controllers/reports.js:257-259 | the three status counts add up to the number of reports |
| Reports.SumConfidenceBounds | backend/controllers/reports.js:242-246 | the confidence sum is between 0 and 100 per report |
| Reports.AverageBounds | backend/controllers/reports.js:242-246 | the average is between 0 and 100 |
| Reports.RoundTenthBounds | backend/controllers/reports.js:264 | rounding to a tenth stays within 0 and 100 |
| Reports.StatsOfSpec | backend/controllers/reports.js:241-259 | totalReports counts the reports, the status counts add up to it, distinct patients are at most that many, the average is 0 without reports and within 0..100 |
| Reports.GetUserStatsSpec | backend/controllers/reports.js:237-259 | the statistics are those of exactly the caller's reports |
| Users.GetAllUsers | backend/controllers/users.js:9-33 | 400 or 403 unless the caller is an admin, 404 for an empty collection; otherwise every account, in order, with nothing changed but the password hidden |
| Users.RolesOf | backend/controllers/users.js:57-73 | roles are passed on exactly when they form a non-empty array |
| Users.CreateNewUser | backend/controllers/users.js:39-103 | 400 for a missing username, password or phone, 409 when the username exists under any letter case, both changing nothing; otherwise the new account, with default paths and the hash, is appended |
| Users.UpdateUser | backend/controllers/users.js:108-139 | only a falsy city gives the 400 (comma operator); 400 for an unknown id; 409 only when another account holds the username; otherwise the five paths and, when one is given, the password change, and the save fails only without a username |
| Users.UpdatedFrame | backend/controllers/users.js:129-137 | the update touches only username, active, phone, country, city and password, and the password only when one is given |
| Users.DeleteUser | backend/controllers/users.js:257-289 | 400 or 403 unless the caller is an admin, 400 for a missing or unknown id; otherwise exactly the account with that id is removed |
| Users.RemovedOnly | backend/controllers/users.js:280 | removing the position of an id removes exactly the account with that id |
| Users.DerivedUsername | backend/controllers/users.js:226-232 | "first last" when the last name is non-blank, the first name alone otherwise |
| Users.ProfileUpdateFrame | backend/controllers/users.js:216-232 | each path the body defines takes its value, every other path stays, and the username changes exactly when a first name is given |
| Users.ProfileOf | backend/controllers/users.js:236-250 | an unset phone, country or city shows its schema default "123", "country" or "city", as a loaded document has it; the location is shown, or "city, country" when it is empty |
| Users.ApplyEdit | backend/controllers/users.js:216-232 | the assignment sequence computes the profile update |
| Users.UpdateUserProfile | backend/controllers/users.js:192-252 | 400 without a token, 404 for an unknown username; otherwise the account becomes its profile update, which is saved unless the username is empty, and the reply is the profile of the updated account |
| ImageValidation.Extname | backend/utils/imageProcessor.js:28-31 | the extension is empty or starts with a dot, and comes from the last path segment |
| ImageValidation.ValidateImage | backend/utils/imageProcessor.js:19-46 | accepts exactly when size ≤ 10 MiB and the extension is allowed or the mimetype is an image type; otherwise throws the size error, the format error, or both joined by ", " with the size error first |
| ImageValidation.AllowedNamePasses | backend/utils/imageProcessor.js:28-35 | a file named stem.ext with an allowed extension in any letter case passes the format rule whatever its mimetype |
| ImageValidation.DotFileHasNoExtension | backend/utils/imageProcessor.js:28-35 | a dot-file such as ".png" has no extension, so it passes only with an image mimetype |
| EmployeeForm.FirstProblem | frontend/src/components/AddEmployee.js:39-73 | no problem exactly when every check passes; otherwise the message of the first failing one |
| EmployeeForm.FirstProblemAppend | frontend/src/components/Employees.js:64-104 | a check list run in two parts reports the first part's problem, or the second's when the first has none |
| EmployeeForm.ValidateContact | frontend/src/components/AddEmployee.js:40-55 | the early-return chain over name, email, email pattern and phone reports the first failing check |
| EmployeeForm.ContactAccepted | frontend/src/components/AddEmployee.js:40-55 | these checks pass exactly when name and phone are not blank and the email matches the pattern |
| EmployeeForm.IsEmailMatchesPattern | frontend/src/components/AddEmployee.js:48 | the email test agrees with `^[^\s@]+@[^\s@]+\.[^\s@]+$` on every string |
| AddEmployee.ValidateForm | frontend/src/components/AddEmployee.js:39-73 | valid exactly when no error is reported, and the error is that of the first failing check in source order |
| AddEmployee.AcceptedExactly | frontend/src/components/AddEmployee.js:40-72 | the form passes exactly when name, phone and code are not blank, the email matches, the password has at least 6 characters and a job position is chosen |
| AddEmployee.FullNameFirst | frontend/src/components/AddEmployee.js:40-43 | a blank full name is reported whatever else is wrong |
| AddEmployee.EmailBeforeLaterFields | frontend/src/components/AddEmployee.js:44-55 | with a name present, a bad email is reported before any later field |
| AddEmployee.UncheckedFields | frontend/src/components/AddEmployee.js:64-71 | the fingerprint and the branch never affect the outcome |
| AddEmployee.SignUpBody | frontend/src/components/AddEmployee.js:87 | the posted body carries the password but no username or phonenumber key |
| Employees.ValidateForm | frontend/src/components/Employees.js:64-104 | valid exactly when no error is reported, and the error is that of the first failing check in source order |
| Employees.AcceptedExactly | frontend/src/components/Employees.js:64-104 | the form passes exactly when name, phone, code and fingerprint are not blank, the email matches, a position is chosen, a new employee has a password and any password has at least 6 characters |
| Employees.PasswordRules | frontend/src/components/Employees.js:82-90 | a new employee without a password is told so, and a short password is refused when editing too |
| Employees.NewEmployeeHasPassword | frontend/src/components/Employees.js:145-150 | a new employee who passed the validator has a password, so the later check in handleSubmit cannot fire |
| Employees.Payload | frontend/src/components/Employees.js:119-132 | fingerprint is sent as fingerprintCode, and the password only when one was typed |
| Employees.EditForm | frontend/src/components/Employees.js:183-196 | the form is filled from the employee with each fallback: name, then username; phonenumber, then phoneNumber; email, code, fingerprint and job position, else empty; the branch, else "Maadi"; and never with a password |
| Employees.EditUnchangedRoundTrip | frontend/src/components/Employees.js:183-196 | editing an employee and saving unchanged sends back its own values and no password |
| Employees.DeleteSpec | frontend/src/components/Employees.js:206 | the list keeps exactly the entries with another id |
| Employees.SelectAll | frontend/src/components/Employees.js:275-283 | clears a selection as long as the list, otherwise selects every id in list order |
| Employees.SelectAllTwice | frontend/src/components/Employees.js:275-283 | from a partial selection, selecting all covers every employee, and pressing again clears it |
| Employees.ToggleMember | frontend/src/components/Employees.js:285-293 | the toggled id flips, and every other id keeps its state |
| Employees.ToggleTwice | frontend/src/components/Employees.js:285-293 | toggling twice restores the selected set, and the very list when the id was absent |
| Employees.ToggleNoDuplicates | frontend/src/components/Employees.js:285-293 | toggling never makes an id appear twice |
| Employees.ExportCredentials | frontend/src/components/Employees.js:230-273 | an empty selection gives the alert and keeps it; otherwise the header and one numbered block per selected employee in list order, and the selection is cleared |
| Employees.CredentialsText | frontend/src/components/Employees.js:242-255 | the `+=` loop builds the header followed by the blocks in order |
| Employees.ExportedExactly | frontend/src/components/Employees.js:237-239 | an employee is exported exactly when listed and selected |
| Employees.BlockFallbacks | frontend/src/components/Employees.js:247-253 | a missing name and email show "N/A", a missing password "Not Set" |
| AddFromHome.FilteredSpec | frontend/src/components/AddFromHome.js:57-61 | an employee is listed exactly when the lower-cased query occurs in its lower-cased name or code |
| AddFromHome.EmptyQueryListsAll | frontend/src/components/AddFromHome.js:57-61 | an empty search lists everyone, in order |
| AddFromHome.HandleDateChange | frontend/src/components/AddFromHome.js:84-89 | only the entry at the index changes |
| AddFromHome.HandleAddDate | frontend/src/components/AddFromHome.js:91-93 | one empty entry is appended and the others are kept |
| AddFromHome.HandleRemoveDate | frontend/src/components/AddFromHome.js:95-100 | drops the entry at the index unless it is the last one left; the list never becomes empty |
| AddFromHome.ValidateForm | frontend/src/components/AddFromHome.js:102-117 | valid exactly when no error is reported, and the error is that of the first failing check |
| AddFromHome.AcceptedExactly | frontend/src/components/AddFromHome.js:102-117 | the form passes exactly when the name is not blank and some date is filled; a blank name is reported first |
| AddFromHome.ThirdCheckUnreachable | frontend/src/components/AddFromHome.js:111-115 | the "Please select at least one valid date" error can never be shown |
| AddFromHome.Payload | frontend/src/components/AddFromHome.js:131-142 | the body is a Pending WFH for the named employee, with reason defaulting to "Work From Home" |
| AddFromHome.ValidDatesSpec | frontend/src/components/AddFromHome.js:131 | the valid dates are the filled entries, each as often as entered, sorted |
| AddFromHome.PayloadSpec | frontend/src/components/AddFromHome.js:131-142 | selectedDates are the valid dates, startDate is the earliest, endDate the latest and numberOfDays their count |

## Left out

- Database access: queries, `populate`, `lean` and `exec`. The stores are in-memory sequences, and only the filtering and ordering of each query is kept.
- Identifiers are counter values, so an `_id` that is not a valid ObjectId cannot be expressed.
- Schema casts of non-string JSON values, such as a number given for a string path, are not modelled.
- RandomWfh.GenerateRandomWFH, RequestModel.CastRequest, ReportModel.CastReport: numeric body values are integers. A fractional value, such as 2.5 days per employee (it passes the 1..7 check and the draw then takes 3 days), a fractional `numberOfDays` or a fractional `age`, is not modelled.
- Ties in the `createdAt`, `startDate` and `employeeName` sorts come out in insertion order in the model. MongoDB leaves their order unspecified. For the `employeeName` sort of WeeklyWfh.GetWeeklyWFH this order also decides which of two overlapping requests of one employee fills a cell (WeeklyWfh.GridSlot) and the row order of keys that share a name.
- JavaScript `Date`, time zones and `toISOString` formatting. Dates are day numbers and "today" is a parameter. The local formatting of the HR list and the grid dates is not modelled.
- `Math.random` becomes a nondeterministic choice of index, so uniformity is not stated.
- bcrypt and JWT: the hash is a parameter. The access and refresh tokens and the cookie of `createNewUser` are not modelled.
- The error-handler middleware is not part of this model. A failed schema check is a 500 with no message, and the `error.message` suffix of a per-employee creation error in `generateRandomWFH` is dropped.
- `toLowerCase` and the case-insensitive collation are modelled on ASCII letters only.
- String lengths are counted in code points, not UTF-16 units. Strings are ordered by code point, which is MongoDB's order. JavaScript's `<` and default `sort` compare UTF-16 units instead, so Sorting.TextLe differs from them for characters outside the Basic Multilingual Plane.
- `averageAccuracy` is computed on exact reals, not floating point. The average and rounding are stated by their bounds only.
- Users.ProfileOf: `memberSince`, the account's `createdAt`, is left out, since time stamps are not modelled.
- The JSON shapes of replies are reduced to the payload each handler sends, a status code and a message. Success codes such as 201 are not distinguished from 200.
- `getUser`, `getUserProfile`, `createEmployee` and `getAllEmployees` are not part of this model. The routes name the last two, but they are absent from the users controller.
- `analyzeXray`, and the `sharp` processing and file writes of the image processor, are not modelled: they are I/O and foreign calls.
- Users.UpdateUser: a body without `username` is modelled as the empty username, which the schema refuses with a 500. The source's duplicate query on an undefined username is not modelled.
- AddFromHome.HandleDateChange: requires an index inside the list, since only rendered fields call it. The source would extend the array for a larger index.
- React state is not modelled: the `setError` resets, loading flags, modals, timers and success messages. The validators return the message they set.
- The search in `filteredEmployees` assumes every listed employee has a name and a code. In the source, a missing one throws during render.
- The `Blob`, the download link and the alert of the credentials export are not modelled. The model returns the file text, and `None` for the alert.
- The Add Employee form posts its own keys to `/users`, which `createNewUser` serves. That handler needs `username` and `phonenumber`, so every such post is refused with 400. AddEmployee.SubmissionLacksSignUpFields states this. The model keeps the source's behaviour and does not invent the mapping that was probably intended.
